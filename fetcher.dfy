/**
 * The fetch worker pool. A `Pool` holds the statics of `Fetcher` (the
 * workers, the round-robin cursor, the in-flight counter and the settings
 * `init` reads); a `Worker` is one `Fetcher` instance with its chunk
 * buffer, its current target and the once-only closures of the requests
 * it sent. The HTTP request, its events and the clock stay outside: what
 * they would deliver (a construction failure, a response's content type
 * and status, the current time) is passed in, and what the worker would
 * schedule (the pacing timer) is returned.
 */
module Fetcher {
  import opened Wrappers
  import Text
  import RoundRobin
  import Extractors

  /** An error handed to a callback; only its message is logged. */
  datatype Error = Error(message: string)

  /** The secondary index a body is stored with: `{fetched: 1}`. */
  datatype Index = Index(fetched: int)

  /** One `store.put(key, url, body, {index: ...})`. */
  datatype PutRecord = PutRecord(key: string, url: Option<string>, body: string, index: Index)

  /** The durable store (external): every `put` is recorded; its completion only logs. */
  class Store {
    const name: string
    var puts: seq<PutRecord>

    constructor (name: string)
      ensures this.name == name && puts == []
    {
      this.name := name;
      puts := [];
    }

    method Put(r: PutRecord)
      modifies this
      ensures puts == old(puts) + [r]
    {
      puts := puts + [r];
    }
  }

  /** The request defaults object, shared by every worker; each fetch writes its `url` field. */
  class RequestOptions {
    var url: Option<string>

    constructor ()
      ensures url == None
    {
      url := None;
    }
  }

  /** `'fetcher-' + i`: the name of the i-th worker. */
  function WorkerName(i: nat): string {
    "fetcher-" + Text.Decimal(i)
  }

  /** Different workers of one `init` get different names, hence their own extractor and store. */
  lemma WorkerNamesDistinct(i: nat, j: nat)
    requires i != j
    ensures WorkerName(i) != WorkerName(j)
  {
    Text.DecimalInjective(i, j);
    assert WorkerName(i)[8..] == Text.Decimal(i);
    assert WorkerName(j)[8..] == Text.Decimal(j);
  }

  lemma NameDiffersFromEarlier(i: nat)
    ensures forall k :: 0 <= k < i ==> WorkerName(k) != WorkerName(i)
  {
    forall k | 0 <= k < i
      ensures WorkerName(k) != WorkerName(i)
    {
      WorkerNamesDistinct(k, i);
    }
  }

  /** The names of the first `n` workers: the names one `init` of `n` workers looks up. */
  function NamesBelow(n: nat): set<string> {
    set k | 0 <= k < n :: WorkerName(k)
  }

  /** One more worker adds exactly its own name. */
  lemma NamesBelowNext(n: nat)
    ensures NamesBelow(n + 1) == NamesBelow(n) + {WorkerName(n)}
  {
    forall x | x in NamesBelow(n + 1)
      ensures x in NamesBelow(n) + {WorkerName(n)}
    {
      var k :| 0 <= k < n + 1 && x == WorkerName(k);
      if k < n {
        assert x in NamesBelow(n);
      }
    }
  }

  /** What `end` stores for the chunks `chunks` of the response for `url`. */
  function Persisted(block: string, url: Option<string>, chunks: seq<string>): PutRecord {
    PutRecord("urls." + block, url, Text.Join(chunks), Index(1))
  }

  /** A target that JavaScript treats as false: absent or the empty string. */
  predicate Falsy(target: Option<string>) {
    target.None? || target.value == ""
  }

  /** The decision taken when the response headers arrive. */
  datatype Gate = Pipe | Abort

  /** The body is piped only for status 200 and a content type containing `text/`. */
  function ContentGate(contentType: Option<string>, status: int): (g: Gate)
    ensures g == Pipe <==> status == 200 && Text.Contains(contentType.GetOr(""), "text/")
  {
    Text.IndexOfFindsOccurrence(contentType.GetOr(""), "text/");
    if Text.IndexOf(contentType.GetOr(""), "text/", 0) >= 0 && status == 200 then Pipe else Abort
  }

  /** Status 200 with an HTML content type: the body is piped. */
  lemma GateAcceptsHtml()
    ensures ContentGate(Some("text/html"), 200) == Pipe
  {
    assert Text.MatchAt("text/html", "text/", 0);
  }

  /** Any status but 200 aborts, the content type notwithstanding. */
  lemma GateRejectsStatus(contentType: Option<string>, status: int)
    requires status != 200
    ensures ContentGate(contentType, status) == Abort
  {
  }

  /** A non-text content type, or none at all, aborts. */
  lemma GateRejectsBinary()
    ensures ContentGate(Some("application/octet-stream"), 200) == Abort
    ensures ContentGate(None, 200) == Abort
  {
    Text.MissingCharRulesOut("application/octet-stream", "text/", 2);
  }

  /** The test is "contains", not "starts with", and it is case-sensitive. */
  lemma GateIsSubstringTest()
    ensures ContentGate(Some("application/x-text/plain"), 200) == Pipe
    ensures ContentGate(Some("TEXT/HTML"), 200) == Abort
  {
    assert Text.MatchAt("application/x-text/plain", "text/", 14);
    Text.MissingCharRulesOut("TEXT/HTML", "text/", 0);
  }

  /**
   * The pacing delay: the caller's callback runs `wait - elapsed` ms later
   * when the request took less than `wait` ms, at once otherwise.
   */
  function Deferral(elapsed: int, wait: int): (d: nat)
    ensures elapsed + d == if elapsed < wait then wait else elapsed
    ensures elapsed + d >= wait
    ensures d == 0 <==> elapsed >= wait
  {
    if elapsed < wait then wait - elapsed else 0
  }

  lemma PacingExamples()
    ensures Deferral(50, 200) == 150
    ensures Deferral(500, 200) == 0
  {
  }

  /** The closure `_callback` made for one request: its start time and its once-only flag. */
  datatype Pending = Pending(start: int, called: bool)

  /** What an invocation of that closure did: nothing, or schedule the caller's callback `delay` ms later. */
  datatype Firing = Ignored | Fire(delay: nat)

  /** What `get` does before returning: call back at once (with an error or none), or leave a request in flight. */
  datatype GetOutcome = Replied(err: Option<Error>) | Requested

  /** The synchronous outcome of `get(target)` when building the request throws `failure` (None: it does not). */
  function Admission(target: Option<string>, failure: Option<Error>): (o: GetOutcome)
    ensures o.Requested? <==> !Falsy(target) && failure.None?
    ensures o.Replied? && o.err.Some? <==> !Falsy(target) && failure.Some?
    ensures o.Replied? && o.err.Some? ==> o.err == failure
  {
    if Falsy(target) then Replied(None)
    else if failure.Some? then Replied(failure)
    else Requested
  }

  class Worker {
    const name: string
    const store: Store
    const extractor: Extractors.Extractor
    /** The crawl block the bodies are stored under (`conf.block`). */
    const block: string
    var buffer: seq<string>
    var url: Option<string>
    /**
     * The closures `_callback` made for the requests this worker sent, in
     * order: each stays attached to its own request, so a late event of an
     * earlier request still reaches its own closure.
     */
    var callbacks: seq<Pending>

    constructor (name: string, store: Store, extractor: Extractors.Extractor, block: string)
      ensures this.name == name && this.store == store && this.extractor == extractor && this.block == block
      ensures buffer == [] && url == None && callbacks == []
    {
      this.name := name;
      this.store := store;
      this.extractor := extractor;
      this.block := block;
      buffer := [];
      url := None;
      callbacks := [];
    }

    /** As `init` leaves the i-th worker: named after its index, nothing buffered, no target, no request sent. */
    ghost predicate Unused(i: nat, block: string)
      reads this
    {
      && name == WorkerName(i) && store.name == WorkerName(i) && this.block == block
      && buffer == [] && url == None && callbacks == []
    }

    /** Stream sink: one chunk of the body. */
    method Write(chunk: string)
      modifies this
      ensures buffer == old(buffer) + [chunk]
      ensures url == old(url) && callbacks == old(callbacks)
    {
      buffer := buffer + [chunk];
    }

    /** Stream end: the last chunk if there is one, one put of the whole buffer, then an empty buffer. */
    method End(chunk: Option<string>)
      modifies this, store
      ensures store.puts == old(store.puts) +
        [Persisted(block, url, old(buffer) + if chunk.Some? then [chunk.value] else [])]
      ensures buffer == []
      ensures url == old(url) && callbacks == old(callbacks)
    {
      if chunk.Some? {
        Write(chunk.value);
      } else {
        assert buffer == old(buffer) + [];
      }
      store.Put(Persisted(block, url, buffer));
      buffer := [];
    }

    /**
     * The closure of request `id` is invoked (by its `end` or `error`
     * event) at time `now`. The first invocation marks it called, persists
     * and clears the worker's buffer on an error (whatever request the
     * worker holds by then), and schedules the caller's callback with the
     * pacing delay measured from that request's start; any later one does
     * nothing. The caller's callback is always called without an error.
     * `wait` is the pool's `wait` at the time the closure runs, which the
     * caller passes in (the closure reads `Fetcher.wait` then).
     */
    method Settle(id: nat, err: Option<Error>, now: int, wait: int) returns (f: Firing)
      requires id < |callbacks|
      modifies this, store
      ensures old(callbacks[id].called) ==> f == Ignored && unchanged(this) && unchanged(store)
      ensures !old(callbacks[id].called) ==>
        && callbacks == old(callbacks)[id := Pending(old(callbacks[id].start), true)]
        && f == Fire(Deferral(now - old(callbacks[id].start), wait))
        && url == old(url)
      ensures !old(callbacks[id].called) && err.Some? ==>
        store.puts == old(store.puts) + [Persisted(block, url, old(buffer))] && buffer == []
      ensures !old(callbacks[id].called) && err.None? ==>
        store.puts == old(store.puts) && buffer == old(buffer)
    {
      var pending := callbacks[id];
      if pending.called {
        return Ignored;
      }
      callbacks := callbacks[id := pending.(called := true)];
      if err.Some? {
        End(None);
        assert old(buffer) + [] == old(buffer);
      }
      f := Fire(Deferral(now - pending.start, wait));
    }

    /**
     * `get(target)` at time `now`, where building the request throws
     * `failure` (None: it does not). A false target is answered at once
     * and changes nothing; otherwise the target becomes the worker's and
     * the shared options' url, and either the construction error is
     * handed straight back (no pacing, no request) or a request is in
     * flight with a fresh once-only closure of its own, next to those of
     * the worker's earlier requests.
     */
    method Get(target: Option<string>, now: int, options: RequestOptions, failure: Option<Error>)
      returns (o: GetOutcome)
      modifies this, options
      ensures o == Admission(target, failure)
      ensures Falsy(target) ==> unchanged(this) && unchanged(options)
      ensures !Falsy(target) ==> url == target && options.url == target && buffer == old(buffer)
      ensures o.Replied? ==> callbacks == old(callbacks)
      ensures o.Requested? ==> callbacks == old(callbacks) + [Pending(now, false)]
    {
      if Falsy(target) {
        return Replied(None);
      }
      url := target;
      options.url := url;
      if failure.Some? {
        return Replied(failure);
      }
      callbacks := callbacks + [Pending(now, false)];
      o := Requested;
    }

    /**
     * The response headers arrive: the extractor's base becomes the
     * current target (whatever the gate decides), then the body is piped
     * or the request aborted.
     */
    method OnResponse(contentType: Option<string>, status: int) returns (g: Gate)
      requires url.Some?
      modifies extractor
      ensures g == ContentGate(contentType, status)
      ensures extractor.url == url && extractor.urlObj == Some(Extractors.Parsed(url.value))
    {
      extractor.SetBaseUrl(url.value);
      g := ContentGate(contentType, status);
    }
  }

  /** What `Fetcher.get` did: threw for want of a worker at the cursor, or handed the target to a worker. */
  datatype DispatchResult = NoWorker | Handed(worker: nat, outcome: GetOutcome)

  /** The workers `init` built: the k-th is unused, named after k, and holds the extractor cached under its name. */
  ghost predicate Built(workers: seq<Worker>, extractors: map<string, Extractors.Extractor>, block: string)
    reads workers
  {
    forall k :: 0 <= k < |workers| ==>
      && workers[k].Unused(k, block)
      && WorkerName(k) in extractors && workers[k].extractor == extractors[WorkerName(k)]
  }

  /**
   * What `init`'s loop leaves: all `poolSize` workers (or none for a size
   * below 1), or, when the registry threw, the workers before the one whose
   * name had no cached extractor.
   */
  ghost predicate Populated(workers: seq<Worker>, ok: bool, poolSize: int, registry: Extractors.Registry,
                            dispatcher: Extractors.Dispatcher, block: string)
    reads workers, registry
  {
    && (ok ==> |workers| == if poolSize > 0 then poolSize else 0)
    && (!ok ==> |workers| < poolSize && WorkerName(|workers|) !in registry.instances
                && registry.configured !in registry.engines)
    && Built(workers, registry.instances, block)
  }

  /** Appending the next unused worker, whose extractor was just cached under its name, keeps `Built`. */
  lemma BuiltExtends(workers: seq<Worker>, w: Worker, before: map<string, Extractors.Extractor>,
                     after: map<string, Extractors.Extractor>, block: string)
    requires Built(workers, before, block)
    requires w.Unused(|workers|, block)
    requires after == before[WorkerName(|workers|) := w.extractor]
    ensures Built(workers + [w], after, block)
  {
    var i := |workers|;
    NameDiffersFromEarlier(i);
    var ws := workers + [w];
    forall k | 0 <= k < i + 1
      ensures ws[k].Unused(k, block) && WorkerName(k) in after && ws[k].extractor == after[WorkerName(k)]
    {
      if k < i {
        assert ws[k] == workers[k];
      }
    }
  }

  /** No two workers share a store. */
  ghost predicate OwnStores(workers: seq<Worker>) {
    forall j, k :: 0 <= j < k < |workers| ==> workers[j].store != workers[k].store
  }

  /** A worker whose store no earlier worker holds keeps the stores apart. */
  lemma OwnStoresExtend(workers: seq<Worker>, w: Worker)
    requires OwnStores(workers)
    requires forall k :: 0 <= k < |workers| ==> workers[k].store != w.store
    ensures OwnStores(workers + [w])
  {
    var ws := workers + [w];
    forall j, k | 0 <= j < k < |ws|
      ensures ws[j].store != ws[k].store
    {
      assert ws[j] == workers[j];
      if k < |workers| {
        assert ws[k] == workers[k];
      }
    }
  }

  /**
   * Workers holding the extractors cached under their own names hold
   * pairwise different extractors when the cache never shares one between
   * names: every fetcher has its own extractor.
   */
  lemma BuiltDistinct(workers: seq<Worker>, extractors: map<string, Extractors.Extractor>, block: string)
    requires Built(workers, extractors, block)
    requires Extractors.Keyed(extractors)
    ensures forall j, k :: 0 <= j < k < |workers| ==> workers[j].extractor != workers[k].extractor
  {
    forall j, k | 0 <= j < k < |workers|
      ensures workers[j].extractor != workers[k].extractor
    {
      WorkerNamesDistinct(j, k);
    }
  }

  /**
   * The cache after the first `n` workers of an `init` were built from
   * cache `before`: every earlier entry is kept, and exactly those `n`
   * names were added.
   */
  ghost predicate Grown(before: map<string, Extractors.Extractor>, after: map<string, Extractors.Extractor>, n: nat) {
    && (forall name :: name in before ==> name in after && after[name] == before[name])
    && after.Keys == before.Keys + NamesBelow(n)
  }

  /** Caching the extractor of worker `n` grows the cache by that worker's name. */
  lemma GrownNext(before: map<string, Extractors.Extractor>, mid: map<string, Extractors.Extractor>,
                  after: map<string, Extractors.Extractor>, n: nat, e: Extractors.Extractor)
    requires Grown(before, mid, n)
    requires WorkerName(n) in mid ==> e == mid[WorkerName(n)]
    requires after == mid[WorkerName(n) := e]
    ensures Grown(before, after, n + 1)
  {
    NamesBelowNext(n);
  }

  class Pool {
    var instances: seq<Worker>
    var next: nat
    var active: int
    var poolSize: int
    var wait: int
    var requestOptions: RequestOptions?
    var dispatcher: Extractors.Dispatcher?

    /** Workers exist only once `init` has set the request defaults. */
    ghost predicate Valid()
      reads this
    {
      instances != [] ==> requestOptions != null
    }

    /** The bookkeeping the round-robin rules (and `isBusy`, `isActive`) are stated over. */
    function State(): RoundRobin.PoolState
      reads this
    {
      RoundRobin.PoolState(|instances|, next, active)
    }

    /** Module load: no workers, cursor and counter at 0. */
    constructor ()
      ensures Valid()
      ensures State() == RoundRobin.PoolState(0, 0, 0)
      ensures requestOptions == null && dispatcher == null
    {
      instances := [];
      next := 0;
      active := 0;
      poolSize := 0;
      wait := 0;
      requestOptions := null;
      dispatcher := null;
    }

    /** `Fetcher.get`: count the request in, hand it to the worker at the cursor, step the cursor. */
    method Dispatch(target: Option<string>, now: int, failure: Option<Error>) returns (r: DispatchResult)
      requires Valid()
      modifies this, instances, requestOptions
      ensures Valid()
      ensures instances == old(instances) && requestOptions == old(requestOptions)
      ensures wait == old(wait) && poolSize == old(poolSize) && dispatcher == old(dispatcher)
      ensures old(next) >= |instances| ==> r == NoWorker && State() == RoundRobin.DispatchStep(old(State()))
      ensures old(next) < |instances| ==> r == Handed(old(next), Admission(target, failure))
      ensures r.Handed? && r.outcome.Replied? ==>
        State() == RoundRobin.CompleteStep(RoundRobin.DispatchStep(old(State())))
      ensures r.Handed? && r.outcome.Requested? ==>
        State() == RoundRobin.DispatchStep(old(State()))
      ensures r.Handed? && !Falsy(target) ==> instances[r.worker].url == target && requestOptions.url == target
      ensures r.Handed? && Falsy(target) ==>
        unchanged(instances[r.worker]) && requestOptions.url == old(requestOptions.url)
      ensures r.Handed? ==> instances[r.worker].buffer == old(instances[r.worker].buffer)
      ensures r.Handed? && r.outcome.Replied? ==>
        instances[r.worker].callbacks == old(instances[r.worker].callbacks)
      ensures r.Handed? && r.outcome.Requested? ==>
        instances[r.worker].callbacks == old(instances[r.worker].callbacks) + [Pending(now, false)]
      ensures r.NoWorker? && requestOptions != null ==> requestOptions.url == old(requestOptions.url)
      ensures forall w :: w in instances && (r.NoWorker? || w != instances[r.worker]) ==> unchanged(w)
    {
      active := active + 1;
      var i := next;
      next := next + 1;
      if i >= |instances| {
        return NoWorker;
      }
      var o := instances[i].Get(target, now, requestOptions, failure);
      if o.Replied? {
        active := active - 1;
      }
      if next >= |instances| {
        next := 0;
      }
      r := Handed(i, o);
    }

    /** The wrapper `Fetcher.get` gave the worker runs (at once or when the pacing timer fires). */
    method Complete()
      modifies this
      ensures State() == RoundRobin.CompleteStep(old(State()))
      ensures instances == old(instances) && requestOptions == old(requestOptions)
      ensures wait == old(wait) && poolSize == old(poolSize) && dispatcher == old(dispatcher)
    {
      active := active - 1;
    }

    /**
     * `new Fetcher('fetcher-' + i)`: a store for the name, then the extractor
     * the registry holds (or builds) for the name; when the registry throws,
     * so does the constructor.
     */
    static method Build(i: nat, registry: Extractors.Registry, dispatcher: Extractors.Dispatcher, block: string)
      returns (w: Option<Worker>)
      requires registry.Valid()
      modifies registry
      ensures registry.Valid()
      ensures registry.engines == old(registry.engines)
      ensures w.None? <==> WorkerName(i) !in old(registry.instances) && registry.configured !in registry.engines
      ensures w.None? ==> registry.instances == old(registry.instances)
      ensures w.Some? ==> fresh(w.value) && fresh(w.value.store) && w.value.Unused(i, block)
      ensures w.Some? ==> registry.instances == old(registry.instances)[WorkerName(i) := w.value.extractor]
      ensures w.Some? && WorkerName(i) in old(registry.instances) ==>
        w.value.extractor == old(registry.instances)[WorkerName(i)]
      ensures w.Some? && WorkerName(i) !in old(registry.instances) ==>
        fresh(w.value.extractor) && w.value.extractor.dispatcher == dispatcher
    {
      var name := WorkerName(i);
      var store := new Store(name);
      var extractor := registry.Get(name, dispatcher);
      if extractor.None? {
        return None;
      }
      var worker := new Worker(name, store, extractor.value, block);
      w := Some(worker);
    }

    /**
     * `Fetcher.init`: read the settings, then build `poolSize` workers named
     * `fetcher-0`, `fetcher-1`, ..., each with its own store and the
     * extractor the registry holds under its name. The cursor and the
     * counter are not reset. When the registry cannot build an extractor
     * the loop throws and the workers built so far stay.
     */
    method Init(registry: Extractors.Registry, dispatcher: Extractors.Dispatcher, options: RequestOptions,
                poolSize: int, wait: int, block: string) returns (ok: bool)
      requires registry.Valid()
      modifies this, registry
      ensures Valid() && registry.Valid()
      ensures next == old(next) && active == old(active)
      ensures this.dispatcher == dispatcher && requestOptions == options
      ensures this.poolSize == poolSize && this.wait == wait
      ensures ok <==> State() == RoundRobin.InitStep(old(State()), poolSize)
      ensures Populated(instances, ok, poolSize, registry, dispatcher, block)
      ensures registry.engines == old(registry.engines)
      ensures forall n :: n in old(registry.instances) ==>
        n in registry.instances && registry.instances[n] == old(registry.instances)[n]
      ensures registry.instances.Keys == old(registry.instances).Keys + NamesBelow(|instances|)
      ensures forall k :: 0 <= k < |instances| ==> fresh(instances[k]) && fresh(instances[k].store)
      ensures forall j, k :: 0 <= j < k < |instances| ==>
        instances[j].store != instances[k].store && instances[j].extractor != instances[k].extractor
    {
      requestOptions := options;
      this.poolSize := poolSize;
      this.wait := wait;
      this.dispatcher := dispatcher;
      instances := [];
      var workers;
      workers, ok := BuildAll(poolSize, registry, dispatcher, block);
      BuiltDistinct(workers, registry.instances, block);
      instances := workers;
    }

    /** One turn of `init`'s loop: build worker `|workers|` and keep the loop's facts about the workers and the cache. */
    static method BuildNext(workers: seq<Worker>, ghost start: map<string, Extractors.Extractor>,
                            registry: Extractors.Registry, dispatcher: Extractors.Dispatcher, block: string)
      returns (w: Option<Worker>)
      requires registry.Valid()
      requires Built(workers, registry.instances, block) && OwnStores(workers)
      requires Grown(start, registry.instances, |workers|)
      modifies registry
      ensures registry.Valid() && registry.engines == old(registry.engines)
      ensures w.None? ==> registry.instances == old(registry.instances)
      ensures w.None? ==> WorkerName(|workers|) !in registry.instances && registry.configured !in registry.engines
      ensures w.Some? ==> fresh(w.value) && fresh(w.value.store)
      ensures w.Some? ==> Built(workers + [w.value], registry.instances, block) && OwnStores(workers + [w.value])
      ensures w.Some? ==> Grown(start, registry.instances, |workers| + 1)
    {
      ghost var regBefore := registry.instances;
      w := Build(|workers|, registry, dispatcher, block);
      if w.Some? {
        BuiltExtends(workers, w.value, regBefore, registry.instances, block);
        GrownNext(start, regBefore, registry.instances, |workers|, w.value.extractor);
        OwnStoresExtend(workers, w.value);
      }
    }

    /** The `for` loop of `init`: worker after worker until `poolSize` are built or one throws. */
    static method BuildAll(poolSize: int, registry: Extractors.Registry, dispatcher: Extractors.Dispatcher,
                           block: string) returns (workers: seq<Worker>, ok: bool)
      requires registry.Valid()
      modifies registry
      ensures registry.Valid()
      ensures Populated(workers, ok, poolSize, registry, dispatcher, block)
      ensures registry.engines == old(registry.engines)
      ensures Grown(old(registry.instances), registry.instances, |workers|)
      ensures forall k :: 0 <= k < |workers| ==> fresh(workers[k]) && fresh(workers[k].store)
      ensures OwnStores(workers)
    {
      workers := [];
      var i := 0;
      while i < poolSize
        invariant 0 <= i == |workers|
        invariant i <= if poolSize > 0 then poolSize else 0
        invariant registry.engines == old(registry.engines)
        invariant Grown(old(registry.instances), registry.instances, i)
        invariant forall k :: 0 <= k < i ==> fresh(workers[k]) && fresh(workers[k].store)
        invariant OwnStores(workers)
        invariant registry.Valid()
        invariant Built(workers, registry.instances, block)
      {
        var worker := BuildNext(workers, old(registry.instances), registry, dispatcher, block);
        if worker.None? {
          return workers, false;
        }
        workers := workers + [worker.value];
        i := i + 1;
      }
      ok := true;
    }
  }
}
