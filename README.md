# Rate limiting, offline routing, keyboard hooks and workflow registry — a Dafny model

This project models four parts of the application in Dafny and proves properties of the models.

- **Fixed-window rate limiter** (`createRateLimiter`, `server/middleware/rateLimiter.js`):
  - Modules `FixedWindow` and `FixedWindowProperties`.
  - The module-level `rateLimitStore` Map of window records is the class `WindowStore`.
    - Its entries are `WindowRecord` objects whose `count` is incremented and decremented in place.
    - A ghost `view` mirrors the records as values.
  - A limiter built by the factory is the class `FixedWindowLimiter`.
    - It holds its options and the store it counts in.
    - Its `Handle` method is the middleware.
    - Its `Complete` method is the `res.send` hook that takes a request back.
  - The minute-by-minute cleanup is `WindowStore.Sweep`.
  - The four preset limiters are the constants `GeneralPolicy`, `StrictPolicy`, `AuthPolicy` and `ApiPolicy`.
  - Each request's decision and stored window is specified by the pure function `Check`.
  - Properties over request sequences are lemmas about `Replay`, `ReplayCompleted` and `ReplayStore`.
- **Sliding-window rate limiter** (`createSlidingWindowRateLimiter`):
  - Module `SlidingWindow`.
  - A limiter is a class with its own `requests` map from client address to a log of admission times.
  - `SlidingCheck` specifies one request.
  - `MatchesReference` proves that pruning the log never changes a decision. For a positive window and requests that arrive in time order, the limiter admits exactly what the unpruned sliding-window rule admits.
- **Service-worker routing** (`public/sw.js`), module `ServiceWorker`:
  - the fetch listener's filter (`Intercepts`);
  - `getContentType` (`GetContentType`, via `LastSegment` and ASCII lower-casing);
  - `getStrategy`, the first-match walk over `RESOURCE_STRATEGIES` (`GetStrategy`).
- **Keyboard hooks** (`src/hooks/useKeyboardNavigation.js`), module `KeyboardNavigation`:
  - the keyboard-modality flag (`KeyboardModality`);
  - the focus trap's Tab handler (`TrapKeyDown`, `FocusAfterTab`);
  - the pressed-key set of the shortcut hook (`ShortcutTracker`, `Triggered`);
  - the arrow-key index update (`NavKeyDown`).
- **Workflow routes** (`server/routes/claude-flow.js`), module `ClaudeFlow`:
  - The `activeFlows` Map is the class `FlowRegistry`. It holds `Flow` objects whose `status`, `agents` and `tasks` are updated in place.
  - Each registry method is tied to the pure step function `FlowStep` over a ghost map of statuses.
  - The simulated roster and task list are `GenerateAgents`, `AgentsFor`, `GenerateTasks` and `AgentCapabilities`.

Shared pieces:
- `Text` holds ASCII `toLowerCase`/`toUpperCase`, `Capitalize` and the decimal rendering of numbers in template literals.
- `Wrappers` holds `Option`.

Clocks are parameters: `Date.now()` is the `now` argument, or the `clock` sequence of per-agent readings for the agent roster. The random part of a workflow id is the `taskId` argument.

## Model

| member | source | states |
|---|---|---|
| FixedWindow.KeyFor | server/middleware/rateLimiter.js:22 | The default key is the client address. The API preset keys by user id when there is a non-empty one, and otherwise by address. |
| FixedWindow.CeilSeconds | server/middleware/rateLimiter.js:60 | `Math.ceil(ms / 1000)`: the result r is the least integer with `ms <= 1000 * r`. |
| FixedWindow.CurrentWindow | server/middleware/rateLimiter.js:38-48 | A missing record, or one whose reset time has come, is replaced by a window with count 0 that ends `windowMs` from now. Otherwise the stored window is kept. |
| FixedWindow.StartsWindow | server/middleware/rateLimiter.js:40 | A request opens a new window iff the key has no record or the record's reset time has come. `CurrentWindow` and `RolloverRestoresBudget` state what follows from it. |
| FixedWindow.Check | server/middleware/rateLimiter.js:37-68 | The verdict on one counted request. It is admitted iff the window's count before it is below `max`, so request `max` passes and request `max+1` is the first rejected. The stored count rises by one, except for a rejection under skipFailedRequests. Remaining is `max(0, max - count)`, never negative. Retry-After is set exactly on rejection. When `windowMs` is positive it is at least 1 s. A rejection carries the configured message. |
| FixedWindow.Decide | server/middleware/rateLimiter.js:53-67 | The verdict for the count a request reached. It is admitted iff the count is at most `max`. Remaining is `max - count` while within the limit and never negative. Retry-After is present iff the request is rejected, and is at least 1 s while the reset time lies ahead. A rejection carries the configured message. |
| FixedWindow.StoredCount | server/middleware/rateLimiter.js:59-65 | The count kept after the verdict is the reached count, or one less. It is one less only under skipFailedRequests, which keeps a count that was within the limit within it. |
| FixedWindow.Uncounts | server/middleware/rateLimiter.js:74-78 | The completion hook decrements iff the status is below 400 under skipSuccessfulRequests, or 400 or more under skipFailedRequests. |
| FixedWindow.Completed | server/middleware/rateLimiter.js:73-80 | The hook changes only the count, by at most one down. The window bounds are unchanged. |
| FixedWindow.Lookup | server/middleware/rateLimiter.js:38 | `rateLimitStore.get(key)`: present exactly for stored keys, with the stored value. |
| FixedWindow.Stale | server/middleware/rateLimiter.js:10 | A record is stale iff more than a minute has passed since its reset time. `WindowStore.Sweep` states that the cleanup deletes exactly the stale records. |
| FixedWindow.WindowRecord.constructor | server/middleware/rateLimiter.js:42-46 | A new window starts at count 0, ends `windowMs` after `now` and records `now` as its first request. |
| FixedWindow.WindowRecord.Value | server/middleware/rateLimiter.js:42-46 | The record read as a value has the record's three fields. |
| FixedWindow.WindowStore.RecordAt | server/middleware/rateLimiter.js:38 | The only object a request for a key may update is that key's record. |
| FixedWindow.WindowStore.constructor | server/middleware/rateLimiter.js:4 | The store starts empty. |
| FixedWindow.WindowStore.SetCount | server/middleware/rateLimiter.js:51 | The count of one key's record changes in place. Every other key keeps its value, because no two keys share a record. |
| FixedWindow.WindowStore.Sweep | server/middleware/rateLimiter.js:7-14 | The cleanup deletes exactly the records whose window ended more than a minute ago. Every other record object is kept as it was. |
| FixedWindow.FixedWindowLimiter.constructor | server/middleware/rateLimiter.js:17-26 | The factory's limiter holds its options and counts in the store it is given (the module-level one). |
| FixedWindow.FixedWindowLimiter.WithOwnStore | server/middleware/rateLimiter.js:17-26 | The corrected factory: the limiter owns a new, empty store. |
| FixedWindow.FixedWindowLimiter.Handle | server/middleware/rateLimiter.js:28-84 | A skipped request touches nothing. Any other request is counted under `keyGenerator(req)`: the store's new contents and the decision are exactly those of `Check`. A new window gets a new record object, and a continuing window updates the existing object. The completion hook is installed iff the request was admitted and a skip option is set, and it captures the key's current record. |
| FixedWindow.FixedWindowLimiter.Admit | server/middleware/rateLimiter.js:34-83 | Counting one request for a key, with `Check`'s contents and decision. The completion hook is installed iff the request was admitted and a skip option is set, and it captures the key's current record. |
| FixedWindow.FixedWindowLimiter.Count | server/middleware/rateLimiter.js:37-65 | The record is fetched or created, incremented, and taken back on an uncounted rejection. The count the request reached is the window's count plus one. |
| FixedWindow.FixedWindowLimiter.WindowFor | server/middleware/rateLimiter.js:38-48 | The record the request is counted in has the value `CurrentWindow` gives, and it is stored under the key. |
| FixedWindow.FixedWindowLimiter.Complete | server/middleware/rateLimiter.js:73-80 | The hook decrements the very record it captured, as `Completed` says. The store shows the new value under a key only while that key still holds the record. A record already swept or replaced by a rollover changes nothing visible in the store. |
| FixedWindowProperties.Replay | server/middleware/rateLimiter.js:37-68 | One decision per request, and a stored window once any request has come. |
| FixedWindowProperties.RunInWindow | server/middleware/rateLimiter.js:40-68 | Requests before the reset time all count in the same window: the (n+i+1)-th is admitted iff n+i < max. Remaining counts down, and the reset time stays fixed. |
| FixedWindowProperties.WindowCap | server/middleware/rateLimiter.js:40-68 | In a new window, requests 1..max are admitted and all later ones are rejected. Remaining is `max(0, max - i - 1)` and the reset time is first request + windowMs. |
| FixedWindowProperties.RolloverRestoresBudget | server/middleware/rateLimiter.js:40-48 | Once the reset time has come, even an exhausted key is admitted, into a new window with count 1 and `max - 1` remaining. |
| FixedWindowProperties.SkipFailedBoundsCount | server/middleware/rateLimiter.js:63-65 | Under skipFailedRequests the stored count never rises above `max`. |
| FixedWindowProperties.RejectionsStayCounted | server/middleware/rateLimiter.js:59-71 | Without skipFailedRequests a rejected request stays counted, so the count exceeds `max`. This holds even under skipSuccessfulRequests, because the hook is only installed after the rejection branch. |
| FixedWindowProperties.SuccessfulRequestsNeverExhaust | server/middleware/rateLimiter.js:71-78 | With skipSuccessfulRequests (the auth preset), requests that all succeed are all admitted, however many come. Two conditions apply. Each admitted request completes before the next arrives. The window starts with room left, even if earlier failures stayed counted. The window then keeps that room. |
| FixedWindowProperties.RetryAfterNonIncreasing | server/middleware/rateLimiter.js:60 | Retry-After never increases as the clock advances toward the reset time. |
| FixedWindowProperties.ReplayCompleted | server/middleware/rateLimiter.js:37-81 | One decision per request when every admitted request completes before the next one arrives. |
| FixedWindowProperties.ReplayStore | server/middleware/rateLimiter.js:34-68 | One decision per request when requests for many keys are interleaved in one store. |
| FixedWindowProperties.TimesOf | server/middleware/rateLimiter.js:34 | The arrival times of exactly that key's requests: a time is listed iff a request for the key arrived at it. There are never more entries than requests. |
| FixedWindowProperties.KeyIsolation | server/middleware/rateLimiter.js:34-48 | In any interleaving, the decisions on one key's requests, and the record it ends with, are those it would get alone. |
| FixedWindowProperties.OneMoreInWindow | server/middleware/rateLimiter.js:40-59 | A request at a window's opening instant with room left is admitted and counted. |
| FixedWindowProperties.Repeat | server/middleware/rateLimiter.js:50-59 | Further requests from one address at its window's opening instant are each counted in the same record object. |
| FixedWindowProperties.SharedStoreLeaks | server/middleware/rateLimiter.js:4 | As written, five general requests from one address use up its authentication budget. Its first login is rejected with 0 remaining (see Findings). |
| FixedWindowProperties.OwnStoresIsolate | server/middleware/rateLimiter.js:99-104 | With a store per limiter, the same first login is admitted with 4 remaining. |
| SlidingWindow.Prune | server/middleware/rateLimiter.js:136 | The `filter` keeps the same members as the logged times later than the window start, and never more entries than were logged. |
| SlidingWindow.Oldest | server/middleware/rateLimiter.js:141 | `Math.min` of a non-empty log is one of its entries and no greater than any entry. |
| SlidingWindow.SlidingCheck | server/middleware/rateLimiter.js:126-157 | One request against an address's log: the log to store and the verdict. `SlidingCheckMeetsRule` states its contract, and `StepFollowsHistory` and `LogStaysWithinMax` build on it. |
| SlidingWindow.SlidingCheckMeetsRule | server/middleware/rateLimiter.js:126-157 | A request is admitted iff fewer than `max` logged requests lie in the window ending now. The pruned log is stored, plus `now` on admission. Remaining is `max` minus the new log length, never negative. A rejection carries the message and Retry-After (at least 1 s, rounded up to whole seconds). Its reset time is the oldest logged request's time plus the window. An empty log under `max <= 0` crashes. |
| SlidingWindow.SlidingWindowLimiter.constructor | server/middleware/rateLimiter.js:115-121 | A limiter with the given options and an empty `requests` Map. |
| SlidingWindow.SlidingWindowLimiter.WithDefaults | server/middleware/rateLimiter.js:115-121 | With every option omitted, the window is one minute and the limit is ten requests. The message is the default one, and the map starts empty. |
| SlidingWindow.SlidingWindowLimiter.LogOf | server/middleware/rateLimiter.js:129-133 | A missing address has an empty log. |
| SlidingWindow.SlidingWindowLimiter.Handle | server/middleware/rateLimiter.js:123-160 | The middleware stores for the address exactly the log `SlidingCheck` gives and returns its verdict. Every other address is untouched. |
| SlidingWindow.PruneTwice | server/middleware/rateLimiter.js:136-137 | Pruning an already pruned log at a later start is pruning once. |
| SlidingWindow.PruneAppend | server/middleware/rateLimiter.js:136 | Pruning distributes over concatenation. |
| SlidingWindow.StepFollowsHistory | server/middleware/rateLimiter.js:126-153 | One request against a log pruned at an earlier start decides as if against the whole admitted history. |
| SlidingWindow.ReplayFollowsHistory | server/middleware/rateLimiter.js:123-160 | For time-ordered requests, the decisions from any earlier-pruned log are the history-based reference decisions. |
| SlidingWindow.MatchesReference | server/middleware/rateLimiter.js:123-160 | For a positive window and requests in time order, starting from an empty log, the limiter admits exactly the requests that have fewer than `max` earlier admissions in the `windowMs` before them. |
| SlidingWindow.LogStaysWithinMax | server/middleware/rateLimiter.js:140-153 | A log never grows past `max` entries. |
| SlidingWindow.TwoPerTenSeconds | server/middleware/rateLimiter.js:123-160 | Two per 10 s: requests at 0 s and 5 s pass with 1 and 0 remaining. A request at 8 s is rejected with reset at 10 s and Retry-After 2. A request at 11 s passes. |
| ServiceWorker.InterceptsIffAllFiltersPass | public/sw.js:80-95 | The worker responds iff the method is GET, the scheme starts with `http`, and the path is neither under `/api/` nor starts with `/ws`. |
| ServiceWorker.ApiTrafficBypasses | public/sw.js:90-93 | API and WebSocket paths always go to the network, whatever the method and scheme. |
| ServiceWorker.Intercepts | public/sw.js:80-95 | The three early returns of the fetch listener. `InterceptsIffAllFiltersPass` and `ApiTrafficBypasses` state when the worker responds. |
| ServiceWorker.LastSegment | public/sw.js:217 | `split('.').pop()`. `LastSegmentIsLastPiece`, `NoDotWholePath` and `LastSegmentOfLower` state what it returns. |
| ServiceWorker.Extension | public/sw.js:217 | The lower-cased last piece of the pathname. `DotlessPathIsWholeExtension` and `ContentTypeIgnoresCase` state its properties. |
| ServiceWorker.ContentTypeFor | public/sw.js:219-243 | The extension switch, with `text/html` for any other extension. `RoutesByExtension` states where each extension's type leads. |
| ServiceWorker.GetContentType | public/sw.js:216-244 | `getContentType`. `RoutesByExtension` and `ContentTypeIgnoresCase` state its contract. |
| ServiceWorker.FirstMatch | public/sw.js:248-253 | The `for … of` over the strategy table. `FirstMatchIsFirst` states that it returns the first matching entry's strategy, or network-first. |
| ServiceWorker.GetStrategy | public/sw.js:247-254 | `getStrategy` over `RESOURCE_STRATEGIES`. `StrategyOfEachContentType` and `NeverNetworkOnlyOrCacheOnly` state its results. |
| ServiceWorker.RouteOf | public/sw.js:99-102 | The strategy `handleRequest` picks for a pathname. `RoutesByPathname` states it. |
| ServiceWorker.LastSegmentIsLastPiece | public/sw.js:217 | `split('.').pop()` is a dot-free suffix of the pathname: either the whole pathname or the part after its last '.'. |
| ServiceWorker.NoDotWholePath | public/sw.js:217 | A pathname without '.' is its own last piece. |
| ServiceWorker.DotlessPathIsWholeExtension | public/sw.js:217 | The extension of a dot-free path is the whole path, lower-cased. |
| ServiceWorker.FirstMatchIsFirst | public/sw.js:247-254 | The strategy is that of the first table entry whose key starts the content type, or network-first when no entry matches. |
| ServiceWorker.NeverNetworkOnlyOrCacheOnly | public/sw.js:12-28 | No content type ever selects network-only or cache-only. |
| ServiceWorker.StrategyOfEachContentType | public/sw.js:21-28 | HTML and JSON are network-first, CSS and JS are stale-while-revalidate, and images and fonts are cache-first. |
| ServiceWorker.RoutesByExtension | public/sw.js:216-254 | An extension's content type selects the strategy the extension calls for. Unknown extensions are routed as pages (network-first). |
| ServiceWorker.RoutesByPathname | public/sw.js:99-102 | The strategy `handleRequest` applies to a pathname is the one its lower-cased extension calls for. |
| ServiceWorker.LastSegmentOfLower | public/sw.js:217 | Lower-casing commutes with taking the text after the last '.'. |
| ServiceWorker.ContentTypeIgnoresCase | public/sw.js:217 | Pathnames equal up to case get the same content type and the same strategy. |
| Text.Lower | public/sw.js:217 | `toLowerCase` keeps the length. |
| Text.LowerAt | public/sw.js:217 | `toLowerCase` maps each character on its own. |
| Text.LowerIdempotent | src/hooks/useKeyboardNavigation.js:95-100 | Lower-casing twice is lower-casing once, so a held key matches itself however a shortcut spells it. |
| Text.LowerAppend | public/sw.js:217 | `toLowerCase` distributes over concatenation. |
| Text.Capitalize | server/routes/claude-flow.js:215 | `charAt(0).toUpperCase() + slice(1)` upper-cases the first character only. |
| Text.Decimal | server/routes/claude-flow.js:214-215 | A number renders as digits with no leading zero. |
| Text.DecimalRoundTrip | server/routes/claude-flow.js:214 | Reading the rendered digits back gives the number. |
| KeyboardNavigation.KeyboardModality.constructor | src/hooks/useKeyboardNavigation.js:4 | The flag starts cleared. |
| KeyboardNavigation.ModalityStep | src/hooks/useKeyboardNavigation.js:7-29 | One keydown, mousedown or touchstart handler on the flag. The `KeyboardModality` methods and `ModalityFollowsLastPointer` state its contract. |
| KeyboardNavigation.KeyboardModality.KeyDown | src/hooks/useKeyboardNavigation.js:7-15 | Tab, Enter or space sets the flag. Any other key leaves it. |
| KeyboardNavigation.KeyboardModality.PointerDown | src/hooks/useKeyboardNavigation.js:17-29 | A mouse press or a touch clears the flag. |
| KeyboardNavigation.ModalityFollowsLastPointer | src/hooks/useKeyboardNavigation.js:7-29 | After any events, the flag is set iff a revealing key came after the last pointer event. With no pointer event, it is also set if it was set at the start. |
| KeyboardNavigation.LastPointer | src/hooks/useKeyboardNavigation.js:17-29 | Only key events follow the last pointer event. |
| KeyboardNavigation.TrapInstalled | src/hooks/useKeyboardNavigation.js:48-55 | The trap acts iff it is active and has a container holding at least one focusable element. |
| KeyboardNavigation.TrapKeyDown | src/hooks/useKeyboardNavigation.js:60-76 | The trap's keydown handler. `TrapActsOnlyAtEnds` states when it intervenes. |
| KeyboardNavigation.FocusAfterTab | src/hooks/useKeyboardNavigation.js:60-76 | The element focused after one Tab or Shift+Tab. `TabStep`, `FocusStaysInside` and `TabCycles` state where focus goes. |
| KeyboardNavigation.TabStep | src/hooks/useKeyboardNavigation.js:60-76 | Tab moves focus to the next element and wraps from the last to the first. Shift+Tab moves to the previous one and wraps from the first to the last. |
| KeyboardNavigation.TrapActsOnlyAtEnds | src/hooks/useKeyboardNavigation.js:60-76 | The handler intervenes, and cancels the default, iff Tab is pressed on the last element or Shift+Tab on the first. It then focuses the first or the last element respectively. |
| KeyboardNavigation.FocusStaysInside | src/hooks/useKeyboardNavigation.js:60-76 | From any focusable element, Tab and Shift+Tab land on a focusable element of the container. |
| KeyboardNavigation.TabCycles | src/hooks/useKeyboardNavigation.js:60-76 | n Tab presses from i reach `(i + n) mod count`, and n Shift+Tab presses reach `(i - n) mod count`. |
| KeyboardNavigation.ShortcutOf | src/hooks/useKeyboardNavigation.js:98 | A shortcut prevents the default unless it sets `preventDefault` to false. Omitting the flag means true. |
| KeyboardNavigation.Triggered | src/hooks/useKeyboardNavigation.js:98-109 | The callbacks run are exactly the shortcuts whose keys are all held, in registration order. The default is prevented iff one of them asks for it. |
| KeyboardNavigation.PressedStep | src/hooks/useKeyboardNavigation.js:94-118 | One keydown, keyup or blur on the set of held keys. `PressedMeansHeld` and the `ShortcutTracker` methods state its contract. |
| KeyboardNavigation.PressedMeansHeld | src/hooks/useKeyboardNavigation.js:95-118 | A lower-cased key is in the set iff it was pressed (or held at the start) and neither released nor cleared by a blur since. |
| KeyboardNavigation.ShortcutTracker.constructor | src/hooks/useKeyboardNavigation.js:91 | The set starts empty. |
| KeyboardNavigation.ShortcutTracker.KeyDown | src/hooks/useKeyboardNavigation.js:94-110 | The key is added lower-cased, then `Triggered` runs on the new set. |
| KeyboardNavigation.ShortcutTracker.KeyUp | src/hooks/useKeyboardNavigation.js:112-114 | The lower-cased key is removed. |
| KeyboardNavigation.ShortcutTracker.Blur | src/hooks/useKeyboardNavigation.js:116-118 | The set is cleared. |
| KeyboardNavigation.StepBack | src/hooks/useKeyboardNavigation.js:150-153 | ArrowUp or ArrowLeft: one back, wrapping to the last item or stopping at 0. `WrapCycles`, `ClampSaturates` and `SelectionStaysInRange` state its effect. |
| KeyboardNavigation.StepForward | src/hooks/useKeyboardNavigation.js:160-163 | ArrowDown or ArrowRight: one forward, wrapping to 0 or stopping at the last item. `WrapCycles`, `ClampSaturates` and `SelectionStaysInRange` state its effect. |
| KeyboardNavigation.NavKeyDown | src/hooks/useKeyboardNavigation.js:143-205 | The list's keydown handler. `NoItemsNoEffect`, `SelectionStaysInRange`, `AxisGating`, `SelectOnlyExisting`, `EscapeOnlyWithCallback`, `WrapCycles` and `ClampSaturates` state its contract, the last two for the arrow keys of either axis. |
| KeyboardNavigation.NoItemsNoEffect | src/hooks/useKeyboardNavigation.js:144 | With a missing or empty list, no key does anything. |
| KeyboardNavigation.SelectionStaysInRange | src/hooks/useKeyboardNavigation.js:146-204 | From a selection inside the list, every key leaves the selection inside it. |
| KeyboardNavigation.AxisGating | src/hooks/useKeyboardNavigation.js:147-185 | Up/Down act, and are cancelled, iff the list is vertical. Left/Right act iff it is horizontal. Otherwise they change nothing. |
| KeyboardNavigation.SelectOnlyExisting | src/hooks/useKeyboardNavigation.js:187-193 | Enter and space are always cancelled and never move the selection. They call `onSelect(items[i], i)` iff there is a callback and a truthy item at i. |
| KeyboardNavigation.EscapeOnlyWithCallback | src/hooks/useKeyboardNavigation.js:195-200 | Escape runs `onEscape`, and is cancelled, iff one was given. |
| KeyboardNavigation.WrapCycles | src/hooks/useKeyboardNavigation.js:147-185 | With wrap, on a vertical list n ArrowDown presses from i select `(i + n) mod length` and n ArrowUp presses select `(i - n) mod length`. On a horizontal list ArrowRight and ArrowLeft do the same. |
| KeyboardNavigation.ClampSaturates | src/hooks/useKeyboardNavigation.js:147-185 | Without wrap, the selection stops at the ends: `min(length - 1, i + n)` after n ArrowDown (vertical) or ArrowRight (horizontal) presses, and `max(0, i - n)` after n ArrowUp or ArrowLeft presses. |
| ClaudeFlow.AgentCapabilities | server/routes/claude-flow.js:249-259 | Every name gets three capabilities or none. |
| ClaudeFlow.CapabilitiesOfEachType | server/routes/claude-flow.js:250-256 | Each of the five types has three capabilities, and the developer and the tester both include testing. |
| ClaudeFlow.UnknownTypeHasNoCapabilities | server/routes/claude-flow.js:258 | Any other name gets `[]`. |
| ClaudeFlow.AgentTypes | server/routes/claude-flow.js:208-210 | A simple workflow has 1 agent, a team workflow 4, and any other mode 5. |
| ClaudeFlow.AgentId | server/routes/claude-flow.js:214 | `agent-${Date.now()}-${index}`. `AgentIdInjective` states that the id determines both the clock reading and the position. |
| ClaudeFlow.AgentName | server/routes/claude-flow.js:215 | "<Type> Agent <index+1>". `RosterShape` states the names of a roster. |
| ClaudeFlow.MakeAgent | server/routes/claude-flow.js:212-220 | The object pushed for one position. `RosterShape` and `RosterIdsDistinct` state its fields across a roster. |
| ClaudeFlow.AgentsFor | server/routes/claude-flow.js:206-223 | The roster has one agent per type, in order. Each agent is built from its type, its position and the clock reading taken for that position. |
| ClaudeFlow.GenerateAgents | server/routes/claude-flow.js:206-223 | The `forEach`/`push` loop, reading the clock once per agent, returns exactly that roster. |
| ClaudeFlow.RosterShape | server/routes/claude-flow.js:208-219 | Every agent is active, has three capabilities and is named "<Type> Agent <i+1>". A simple roster is one developer. A team roster is coordinator, developer, analyst and tester, in that order. |
| ClaudeFlow.DecimalInjective | server/routes/claude-flow.js:214 | Distinct positions render as distinct numbers. |
| ClaudeFlow.AgentIdInjective | server/routes/claude-flow.js:214 | Equal agent ids come from the same clock reading and the same position. |
| ClaudeFlow.AgentIdsDistinct | server/routes/claude-flow.js:214 | Two different positions get different agent ids, whatever the clock read for each of them. |
| ClaudeFlow.RosterIdsDistinct | server/routes/claude-flow.js:212-220 | The agents of one roster have pairwise distinct ids, even when the clock advances between them. |
| ClaudeFlow.IdAt | server/routes/claude-flow.js:227-231 | `agents[k]?.id` is defined iff position k exists. |
| ClaudeFlow.GenerateTasks | server/routes/claude-flow.js:225-232 | Five tasks "task-1".."task-5", the first running and the rest pending. They are assigned to the agents at positions 0, 1, 1, 3 and 2, or to nobody when that position is missing. |
| ClaudeFlow.SimpleTaskOwners | server/routes/claude-flow.js:227-231 | In simple mode only the first task has an owner, the developer. |
| ClaudeFlow.TeamTaskOwners | server/routes/claude-flow.js:227-231 | In team mode the requirements go to the coordinator, design and implementation to the developer, tests to the tester, and documentation to the analyst. |
| ClaudeFlow.DefaultTaskOwners | server/routes/claude-flow.js:227-231 | In any other mode "Write tests" goes to the researcher, not the tester. |
| ClaudeFlow.FifthAgentIdle | server/routes/claude-flow.js:227-231 | With five distinct agents, no task goes to the fifth. |
| ClaudeFlow.DefaultTesterIdle | server/routes/claude-flow.js:206-232 | In any other mode the tester gets no task at all. |
| ClaudeFlow.Flow.constructor | server/routes/claude-flow.js:46-56 | A new workflow is running, with the body's fields, its start time, and no agents or tasks. |
| ClaudeFlow.Flow.SpawnAgents | server/routes/claude-flow.js:68-70 | The one-second timer replaces the agents with the mode's roster, built with one clock reading per agent, and leaves status and tasks alone. |
| ClaudeFlow.Flow.CreateTasks | server/routes/claude-flow.js:89-91 | The three-second timer assigns the task list from the agents present at that moment. |
| ClaudeFlow.Flow.CompleteTask | server/routes/claude-flow.js:235-237 | A completion timer marks one task completed and changes nothing else. |
| ClaudeFlow.FlowRegistry.constructor | server/routes/claude-flow.js:7 | The registry starts empty. |
| ClaudeFlow.FlowRegistry.FlowAt | server/routes/claude-flow.js:137 | The only workflow object a request for an id may update is the one registered under that id, if any. |
| ClaudeFlow.FlowRegistry.Start | server/routes/claude-flow.js:40-132 | With a body, a new running workflow is registered under the new id. It carries the body's objective, mode and project path, the start time, and no agents or tasks. Every other workflow is untouched. Without a body the answer is a 500 and nothing changes. |
| ClaudeFlow.FlowRegistry.Pause | server/routes/claude-flow.js:135-151 | A registered workflow becomes paused, and its roster and tasks stay as they were. No other workflow object can change. An unknown id gets a 404. |
| ClaudeFlow.FlowRegistry.Resume | server/routes/claude-flow.js:154-170 | A registered workflow becomes running, and its roster and tasks stay as they were. No other workflow object can change. An unknown id gets a 404. |
| ClaudeFlow.FlowRegistry.Stop | server/routes/claude-flow.js:173-191 | The workflow object is marked stopped, keeps its roster and tasks, and is unregistered. No other workflow object can change. An unknown id gets a 404. |
| ClaudeFlow.FlowRegistry.Status | server/routes/claude-flow.js:194-203 | Returns the registered workflow itself, or a 404, and changes nothing. |
| ClaudeFlow.FlowStep | server/routes/claude-flow.js:40-203 | The registry's effect on the statuses and the response, for one request. The `FlowRegistry` methods, `UnknownIdNotFound` and `PauseResumeKeepIds` state its contract. |
| ClaudeFlow.UnknownIdNotFound | server/routes/claude-flow.js:137-141 | Pause, resume, stop and status on an unknown id answer 404 and change nothing. |
| ClaudeFlow.PauseResumeKeepIds | server/routes/claude-flow.js:143-162 | Pause and resume keep the set of ids and relabel only the addressed workflow. |
| ClaudeFlow.NeverStoppedWhileRegistered | server/routes/claude-flow.js:181-182 | After any requests, no registered workflow is marked stopped. |
| ClaudeFlow.Run | server/routes/claude-flow.js:40-203 | One response per request. |
| ClaudeFlow.GoneUntilRestarted | server/routes/claude-flow.js:137-182 | An unregistered id stays unregistered until a start reuses it, and every request for it meanwhile answers 404. |
| ClaudeFlow.StopIsFinal | server/routes/claude-flow.js:173-191 | After a successful stop, every later request for that id answers 404 until it is started again. |
| ClaudeFlow.Lifecycle | server/routes/claude-flow.js:40-203 | The sequence start, pause, status, resume, status, stop, status answers started, paused, Paused, resumed, Running, stopped, 404, and leaves the registry empty. |

## Left out

- The `setInterval` scheduling of the sweep: `WindowStore.Sweep` is one pass at a given time.
- `res.setHeader` output and the ISO-8601 formatting of `X-RateLimit-Reset`: headers are values, and reset times stay in milliseconds.
- Construction of `RateLimitError`: a rejection is the `Limited` or `Rejected` value. `server/middleware/errorHandler.js` is not part of this model.
- The `skip` option: its awaited verdict is the `skip` argument of `Handle`.
- The replaced `res.send`: `FixedWindowLimiter.Complete` models one run of its body with the final status code. Two cases are not captured. In Express, `res.send` with an object re-enters the replaced `send` through `res.json`, so the decrement can run twice for one response. A response finished by `res.end`, a redirect or a piped stream never runs the hook, so it is never taken back.
- `FixedWindowProperties.SuccessfulRequestsNeverExhaust`: overlapping in-flight requests are not covered. The decrement runs only when the response is sent (rateLimiter.js:71-78). Successful requests that are all in flight at once are therefore counted together and can be rejected: under the auth preset, the sixth concurrent login sees a count of 5. The lemma covers requests that each complete before the next arrives.
- `Date.now()`: every reading is a parameter. A rate-limiter request reads the clock once (rateLimiter.js:35, :125). `generateAgents` reads it once per agent (claude-flow.js:214), so it takes one reading per position.
- The sliding limiter never removes an address from its `requests` map. The model keeps that, and leaves memory out.
- `SlidingWindow.SlidingWindowLimiter.Handle`: with `max <= 0` and an empty log the source throws from `toISOString` (after `Math.min()` yields Infinity). The model reports `Crashed` instead of the thrown exception.
- The cache handlers of the service worker (`cacheFirst`, `networkFirst`, `staleWhileRevalidate`), install/activate, messages, background sync and push: they are I/O over the Cache and Fetch APIs. The model stops at the chosen `Strategy`.
- `Text.Lower`: `toLowerCase` is modelled on ASCII letters only; Unicode case mapping is out of scope.
- DOM effects of the keyboard hooks: the `keyboard-navigation` body class, `focus()` calls, listener registration and removal, and React re-renders.
- `KeyboardNavigation.FocusAfterTab`: when the trap does not intervene, the browser's own Tab order is taken to be document order.
- Shortcut callbacks and `onSelect`/`onEscape` are foreign code. They are identified by position and reported as effects.
- `useArrowKeyNavigation`: `useState` is used but not imported at line 1, so the hook as written throws when called. The model covers the handler's index update as if the import were present. It treats the functional updater and the closed-over `selectedIndex` as the same value, which holds between renders.
- The WebSocket `broadcast` calls, the 200 ms and 300 ms announcement timers, and the resource-update interval with its random figures are not modelled.
- The random suffix of a workflow id is the `taskId` parameter. `objective` and `options` are carried as optional strings or omitted.
- `getAgentCapabilities` on names such as `constructor`: JavaScript would find an inherited prototype member. The model answers `[]` for every name other than the five types.
- Timers keep running after stop and still write to the unregistered flow object. The model leaves that object out of the registry's view.

## Findings

| source | as written | input that shows it | evidently intended | confidence | as-written member | corrected member |
|---|---|---|---|---|---|---|
| server/middleware/rateLimiter.js:4 | Every limiter the factory builds counts in the one module-level `rateLimitStore`, keyed only by address or user id. So the general, strict, auth and API presets share one count per client. | Five ordinary requests from one address inside 15 minutes, then a login request through the auth limiter from the same address. | Each preset keeps its own counts, so the login is admitted with 4 attempts remaining. | not executed | FixedWindowProperties.SharedStoreLeaks | FixedWindowProperties.OwnStoresIsolate |
