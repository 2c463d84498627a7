# crawl.js fetch/extract core in Dafny

This project models the bookkeeping at the heart of the crawl.js crawler.

**The fetcher pool** (`lib/fetcher.js`).
- `Fetcher.init` builds `poolSize` workers named `fetcher-0`, `fetcher-1`, ….
- `Fetcher.get` hands each target to the worker under a round-robin cursor `next`. It counts in-flight requests in `active`.
- `isBusy` and `isActive` read that counter.
- Each worker buffers the body chunks it is streamed (`write`). It persists the buffer as one store record and clears it (`end`).
- Each request gets a once-only callback. On an error, that callback persists what was buffered. It then calls the caller back, delayed so that at least `wait` ms pass since the request began.
- When the response headers arrive, the worker points its extractor at the target. It then pipes the body only for status 200 and a content type containing `text/`. Otherwise it aborts.

**The extractor registry** (`lib/extractor.js`).
- A process-wide table of engines is filled at load time with exactly `regex` and `parser`.
- A process-wide cache maps a name to its extractor. The first `get` of a name builds an extractor of the configured engine kind with the given dispatcher. Every later `get` of that name returns the same object.
- `found` forwards a link unchanged to the dispatcher.
- `setBaseUrl` replaces the extractor's base URL.

## Modules

Each file holds one module.
- `wrappers.dfy`: `Option`.
- `text.dfy` (`Text`): the JavaScript string primitives the core uses.
  - `indexOf` as `IndexOf`.
  - `Array.prototype.toString` on the chunk buffer, as the comma join `Join`.
  - The decimal rendering in `'fetcher-' + i`, as `Decimal`.
- `round_robin.dfy` (`RoundRobin`): the pool's static fields as a value `PoolState(size, next, active)`.
  - The steps that `Fetcher.get`, the completion wrapper and `Fetcher.init` apply to it.
  - Runs of dispatch/completion events, with lemmas about whole runs.
- `extractor.dfy` (`Extractors`): the `Dispatcher` log, the `Extractor` class, and the `Registry` class holding `engines` and `instances`.
- `fetcher.dfy` (`Fetcher`):
  - the `Store` log and the shared `RequestOptions`;
  - the `Worker` class: one `Fetcher` instance and its prototype methods;
  - the `Pool` class: the `Fetcher` statics. `Pool.State()` ties it to `RoundRobin`;
  - the pure rules `ContentGate`, `Deferral` and `Admission`.

Effects outside the core are parameters of the methods, or results they return:
- the request library's construction error;
- the response's content type and status;
- the current time;
- the pacing timer, returned as `Fire(delay)`.

Completion of a request is a separate call, `Pool.Complete`. Its timing is chosen by the caller.

## Behaviour the model follows

Each of these is what the code does, even where a reader might expect something else:
- `Fetcher.init` does not reset `next` or `active`.
  - Re-initialising with no more workers than the cursor's value leaves the cursor at or past the end.
  - From then on every `Fetcher.get` throws, because there is no worker at the cursor.
  - Each of those throws comes after `active++`, and no wrapper ever runs to undo it (`RoundRobin.Accounting` holds from any cursor). So `active` keeps counting requests never sent, and a caller that respects `isBusy` soon finds the pool busy for good.
  - `RoundRobin.StrandedCursorStays` and `RoundRobin.ShrinkingInitStrandsCursor` state this.
- The content gate is a substring test (`indexOf('text/') >= 0`), not a prefix test.
  - It is case-sensitive: `TEXT/HTML` is aborted.
  - `application/x-text/plain` is piped.
- A transport error runs `end()`. The partial buffer is stored as a record before the buffer is cleared.
- `setBaseUrl` runs on every response, before the gate decides. Aborted responses also move the extractor's base.
- The stored body is the chunk array's `toString()`, which joins the chunks with `","`.
  - The `'utf-8'` argument is ignored by arrays.
  - A body that arrives in two chunks is stored with a comma inside it (`Text.JoinDependsOnChunking`).
- `Fetcher.get` with the cursor at or past the end throws a `TypeError` after `active++` and `next++`, and before the wrap. `Pool.Dispatch` returns `NoWorker` with exactly that state change.
- A request that cannot be constructed is reported to the caller at once, with no pacing. The completion wrapper still decrements `active`.
- `isBusy` bounds the number of requests in flight, not the requests of each worker. `Fetcher.get` does not check that the worker at the cursor is idle.
  - With two workers, the run dispatch, dispatch, completion, dispatch obeys `isBusy` and hands worker 0 a second target (`RoundRobin.WorkerReusedWhileInFlight`). The completion may have been worker 1's.
  - Each request keeps its own once-only closure with its own start time (`Worker.callbacks`), as each `get` makes a fresh `_callback`.
  - A late error of the earlier request still runs that request's closure. Its `end()` then stores the worker's shared buffer under the newer target's url (`Fetcher.Worker.Settle`).

## Model

| member | source | states |
|---|---|---|
| RoundRobin.IsBusy | lib/fetcher.js:41-43 | `Fetcher.isBusy` on the pool's state (`RoundRobin.IsBusy(pool.State())`): requests in flight at least the number of workers; its meaning under the admission discipline is `RoundRobin.BusyMeansFull` |
| RoundRobin.IsActive | lib/fetcher.js:45-47 | `Fetcher.isActive` on the pool's state: some request in flight |
| RoundRobin.DispatchStep | lib/fetcher.js:54-63 | the definition of one `Fetcher.get` on the bookkeeping (count in, step and wrap the cursor, or count in and step past the end when there is no worker there); `Fetcher.Pool.Dispatch` is proved to perform it and the run lemmas below are about it |
| RoundRobin.CompleteStep | lib/fetcher.js:56-58 | the definition of the wrapper's `active--`; `Fetcher.Pool.Complete` is proved to perform it |
| RoundRobin.InitStep | lib/fetcher.js:65-78 | the definition of `init` on the bookkeeping: the size becomes `max(poolSize, 0)`, cursor and counter stay; `Fetcher.Pool.Init` is proved to perform it on success |
| RoundRobin.BusyMeansFull | lib/fetcher.js:41-47 | under the admission discipline, `isBusy` holds exactly when as many requests as workers are in flight, and `isActive` exactly when any is |
| RoundRobin.WorkerReusedWhileInFlight | lib/fetcher.js:41-62 | with two workers the run dispatch, dispatch, completion, dispatch obeys `isBusy` and sends the third target to worker 0 again |
| RoundRobin.Advance | lib/fetcher.js:56-62 | from a cursor inside the pool, the stepped cursor is `(next + 1) mod size` and stays inside the pool |
| RoundRobin.Accounting | lib/fetcher.js:54-63 | over any run of dispatches and completions, from any cursor: `active` = start + dispatches − completions and the size is unchanged; from a cursor inside the pool, the cursor has moved by the number of dispatches modulo the pool size |
| RoundRobin.AssignedByCallOrder | lib/fetcher.js:56-62 | the j-th dispatch of a run goes to worker `(start cursor + j) mod size`, whatever completions come in between: assignment depends only on call order |
| RoundRobin.BurstVisitsEachWorkerOnce | lib/fetcher.js:56-62 | a run with as many dispatches as workers hands a target to every worker exactly once (pairwise distinct) and brings the cursor back to its start |
| RoundRobin.AdmissionBound | lib/fetcher.js:41-47 | if the caller dispatches only when `isBusy` is false and completes only when `isActive` is true, `active` stays within [0, pool size] |
| RoundRobin.StrandedCursorStays | lib/fetcher.js:56-62 | once the cursor is at or past the pool size it is never wrapped again: it counts up by one per dispatch and no dispatch gets a worker index below it |
| RoundRobin.ShrinkingInitStrandsCursor | lib/fetcher.js:65-78 | after `init` with a pool size not above the kept cursor, every later dispatch reads a cursor outside the pool |
| Fetcher.Pool.constructor | lib/fetcher.js:32-34 | at module load the pool has no workers, cursor 0 and counter 0 |
| Fetcher.Pool.Dispatch | lib/fetcher.js:54-63 | the target goes to the worker at the old cursor with the outcome `Admission` gives; the pool state takes one `DispatchStep` (plus the wrapper's `CompleteStep` when the worker answered at once); with no worker at the cursor the result is `NoWorker` after `active++`/`next++`, and the shared options keep their url; a handed target leaves the worker's buffer alone; a falsy one leaves the worker and the shared options' url unchanged, a truthy one becomes both urls; a request in flight adds one fresh closure to the worker, an immediate answer adds none; every other worker is unchanged |
| Fetcher.Pool.Complete | lib/fetcher.js:56-59 | the wrapper around the caller's callback takes one `CompleteStep`: `active` drops by one, nothing else changes |
| Fetcher.Pool.Init | lib/fetcher.js:65-78 | settings are replaced; cursor and counter are kept; on success the pool size becomes `max(poolSize, 0)` (exactly `InitStep`); worker k is fresh, named `fetcher-k`, has a fresh store, an empty buffer and no request, and holds the extractor the registry caches under its name; no two workers share a store or an extractor; when the registry throws, the workers before the failing name remain; existing cache entries and the engine table are untouched, the cache gains exactly the names of the workers built (`fetcher-0` … `fetcher-(n-1)`, nothing else), and every cached extractor still carries the name it is cached under |
| Fetcher.Pool.BuildAll | lib/fetcher.js:74-76 | the loop builds workers 0, 1, … in order until `poolSize` are built or one constructor throws, with the same facts per worker as `Init`, pairwise different stores, and a cache grown by exactly the built workers' names |
| Fetcher.Pool.Build | lib/fetcher.js:12-25 | `new Fetcher('fetcher-' + i)`: fresh worker and store under that name; the extractor is the cached one when the name is cached, else a fresh one with the pool's dispatcher, cached under the name; throws (None) exactly when the name is uncached and the configured engine kind is unknown |
| Fetcher.WorkerNamesDistinct | lib/fetcher.js:75 | distinct indices give distinct `'fetcher-' + i` names |
| Fetcher.WorkerName | lib/fetcher.js:75 | the definition of `'fetcher-' + i`; `Fetcher.WorkerNamesDistinct` proves it injective |
| Fetcher.BuiltDistinct | lib/fetcher.js:16-18 | workers that hold the extractors cached under their own distinct names, in a cache whose every extractor carries the name it is cached under, hold pairwise different extractors |
| Fetcher.Worker.constructor | lib/fetcher.js:12-25 | a worker starts with its name, store and extractor, an empty buffer, no url and no request sent |
| Fetcher.Worker.Write | lib/fetcher.js:83-85 | exactly one chunk is appended to the buffer; url and closures are unchanged |
| Fetcher.Worker.End | lib/fetcher.js:87-100 | the chunk, if present, is appended; exactly one record is put: key `urls.<block>`, the worker's url, the comma join of the whole buffer, index `{fetched: 1}`; the buffer is then empty |
| Fetcher.Worker.Settle | lib/fetcher.js:102-128 | a second invocation of a request's closure does nothing at all; the first marks that closure called (no other closure changes), persists the worker's buffer under its current url and clears it when given an error (and leaves store and buffer alone otherwise), and fires the caller's callback after `Deferral(now − start of that request, wait)` |
| Fetcher.Admission | lib/fetcher.js:130-149 | a request is left in flight exactly when the target is truthy and building the request does not throw; an immediate answer carries an error exactly when a truthy target's request construction threw, and that error is the thrown one |
| Fetcher.Persisted | lib/fetcher.js:93 | the definition of the record `end` puts: key `urls.<block>`, the worker's url, the comma join of the chunks, index `{fetched: 1}` |
| Fetcher.Deferral | lib/fetcher.js:117-125 | the delay is `wait − elapsed` when elapsed < wait, else 0: elapsed + delay = max(elapsed, wait) ≥ wait, and the delay is 0 exactly when elapsed ≥ wait |
| Fetcher.PacingExamples | lib/fetcher.js:118-124 | a 50 ms request with wait 200 is deferred 150 ms; a 500 ms one is not deferred |
| Fetcher.Worker.Get | lib/fetcher.js:130-153 | the outcome is `Admission(target, failure)`: a falsy target answers at once and changes nothing; otherwise the worker's and the shared options' url become the target; a construction error is handed back at once and adds no closure; otherwise one fresh once-only closure starting `now` is added after the earlier ones; the buffer is untouched |
| Fetcher.Worker.OnResponse | lib/fetcher.js:156-170 | the extractor's base becomes the worker's url whatever the gate decides, and the decision is `ContentGate` |
| Fetcher.ContentGate | lib/fetcher.js:164-169 | the body is piped exactly when the status is 200 and the content type (empty when absent) contains `text/` |
| Fetcher.GateAcceptsHtml | lib/fetcher.js:164-166 | `text/html` with status 200 is piped |
| Fetcher.GateRejectsStatus | lib/fetcher.js:164-169 | any status other than 200 aborts, for every content type |
| Fetcher.GateRejectsBinary | lib/fetcher.js:159-169 | `application/octet-stream`, or a missing content type, aborts |
| Fetcher.GateIsSubstringTest | lib/fetcher.js:164 | `application/x-text/plain` is piped (contains, not starts-with) and `TEXT/HTML` is aborted (case-sensitive) |
| Text.IndexOf | lib/fetcher.js:164 | the result is -1 and there is no occurrence at or after `from`, or it is the first index at or after `from` where the pattern occurs |
| Text.IndexOfFindsOccurrence | lib/fetcher.js:164 | `indexOf(pat) >= 0` holds exactly when the string contains the pattern |
| Text.Join | lib/fetcher.js:93 | the definition of `Array.prototype.toString` on the chunk array: the chunks joined with `","`; `Text.JoinSnoc`, `Text.JoinLength`, `Text.JoinSingle` and `Text.JoinDependsOnChunking` state its properties |
| Text.JoinSnoc | lib/fetcher.js:84-93 | writing one more chunk to a non-empty buffer adds a comma and that chunk to the stored body |
| Text.JoinLength | lib/fetcher.js:93 | the stored body is as long as all chunks together plus one separator between every two chunks |
| Text.JoinSingle | lib/fetcher.js:93 | a single chunk is stored exactly as received |
| Text.JoinDependsOnChunking | lib/fetcher.js:93 | the same received text in two chunks and in one chunk is stored differently |
| Text.ParseDecimalOfDecimal | lib/fetcher.js:75 | the decimal rendering of a worker index is all digits and reads back as the index |
| Text.DecimalInjective | lib/fetcher.js:75 | different indices render differently |
| Extractors.Registry.constructor | lib/extractor.js:47-49 | after module load the engine table has exactly the keys `regex` and `parser`, each mapped to the engine loaded from `./extractors/<kind>`, and the instance cache is empty (so trivially every cached extractor carries its key as its name) |
| Extractors.Registry.Get | lib/extractor.js:19-26 | a cached name yields the identical cached instance and changes nothing, whatever dispatcher is passed; an uncached name yields a fresh instance of the configured engine with that name and dispatcher, cached under the name with every other entry kept; an unknown configured kind throws (None) and caches nothing; every cached extractor keeps carrying the name it is cached under |
| Extractors.Extractor.constructor | lib/extractor.js:8-14 | an extractor keeps the name and the dispatcher it was built with (the dispatcher is never reassigned) and has no base url yet |
| Extractors.Extractor.Found | lib/extractor.js:32-34 | the dispatcher's log grows by exactly the given link, unchanged |
| Extractors.Extractor.SetBaseUrl | lib/extractor.js:36-39 | the base url becomes the given string, replacing any earlier one, and the parsed form is the parse of that string |

## Left out

- The `request` HTTP library is not modelled: its events (`response`, `data`, `end`, `error`), `req.pipe` and `resp.request.abort()`. What they would deliver is passed in, and what the worker would do is returned as `Gate` (`Pipe` / `Abort`).
- Real time is not modelled. `Date.now()` is the `now` parameter, and the start time is recorded in `Pending`. `setTimeout` is the returned `Fire(delay)`.
- The store is a log of `put` records. `Store.get`'s lookup of a shared store by name, and the put's completion callback (which only logs), are not modelled.
- `url.parse` is not modelled. The parsed object is kept opaque as `Parsed(source)`.
- The engines' code in `./extractors/regex` and `./extractors/parser` is not part of this model. An engine is known only by the module it is loaded from.
- Logging, configuration loading and the `util.inherits` / `stream.Stream` wiring are left out. The configuration values used (`poolSize`, `wait`, `block`, the request defaults, the engine kind) are parameters.
- Concurrency is not modelled. Events of different requests, including two requests of one worker, are separate calls in some sequential order; each request's events reach that request's own closure. The race on the shared `requestOptions.url`, written by every `get` before its request is built, is therefore modelled only as the field write.
- A caller callback that calls `Fetcher.get` again from inside a synchronous answer is not modelled. Such a call runs before the outer call wraps the cursor.
- JavaScript object lookups of inherited names (a name such as `__proto__` or `constructor` looked up in `Extractor.instances` or `Extractor.engines`) are not modelled. The maps here hold only what was stored.
- Chunks are text, not `Buffer`s. Any present chunk counts as truthy in `end`, as a `Buffer` (even an empty one) does. A chunk passed as the empty string would be skipped by the code.
- A missing `conf.fetcher.request` is not modelled, so `Fetcher.get` on a configured pool always has options. A response without headers (`resp.headers` undefined, which throws at line 159) is not modelled either. A missing content-type header is the `None` content type.
- Fetcher.Pool.Init: does not restate that freshly built extractors carry the new dispatcher. `Fetcher.Pool.Build` states it for each worker, and the per-worker facts `Init` keeps are its name, store, buffer and cached extractor.
- Fetcher.Pool.Dispatch: the caller's callback itself is not part of the model. Its invocation is the `Replied` outcome (at once) or a later `Settle` followed by `Complete`.
