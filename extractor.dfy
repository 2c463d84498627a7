/**
 * The extractor layer: a process-wide registry of extraction engines keyed
 * by kind, a process-wide cache of extractors keyed by target name, and the
 * two operations every extractor offers its engine (`found`) and its
 * fetcher (`setBaseUrl`).
 */
module Extractors {
  import opened Wrappers

  /** A link an engine recognised (the URL object it hands to `found`), kept as its text. */
  type Link = string

  /** The crawl dispatcher (external): records every link handed to its `dispatch`. */
  class Dispatcher {
    var dispatched: seq<Link>

    constructor ()
      ensures dispatched == []
    {
      dispatched := [];
    }

    method Dispatch(link: Link)
      modifies this
      ensures dispatched == old(dispatched) + [link]
    {
      dispatched := dispatched + [link];
    }
  }

  /** The value `url.parse` returns; parsing itself is foreign code, so only its input is kept. */
  datatype UrlObject = Parsed(source: string)

  /**
   * An engine constructor, as loaded by `require('./extractors/' + kind)`;
   * the engines' own code is not part of this model, so an engine is
   * known by the module it was loaded from.
   */
  datatype Engine = Engine(source: string)

  /** The engine kinds registered when the module is loaded, in registration order. */
  const EngineKinds: seq<string> := ["regex", "parser"]

  function EngineModule(kind: string): string {
    "./extractors/" + kind
  }

  class Extractor {
    const name: string
    /** The engine constructor this instance was built with. */
    const engine: Engine
    /** Set once, when the instance is built; never reassigned. */
    const dispatcher: Dispatcher
    var url: Option<string>
    var urlObj: Option<UrlObject>

    constructor (name: string, engine: Engine, dispatcher: Dispatcher)
      ensures this.name == name && this.engine == engine && this.dispatcher == dispatcher
      ensures url == None && urlObj == None
    {
      this.name := name;
      this.engine := engine;
      this.dispatcher := dispatcher;
      url := None;
      urlObj := None;
    }

    /** Engines call this for each link they recognise: it goes to the dispatcher as it is. */
    method Found(link: Link)
      modifies dispatcher
      ensures dispatcher.dispatched == old(dispatcher.dispatched) + [link]
    {
      dispatcher.Dispatch(link);
    }

    /** The base the engine resolves relative links against; each call replaces the previous one. */
    method SetBaseUrl(urlString: string)
      modifies this
      ensures url == Some(urlString) && urlObj == Some(Parsed(urlString))
    {
      url := Some(urlString);
      urlObj := Some(Parsed(urlString));
    }
  }

  /**
   * Every cached extractor carries the name it is cached under; so
   * different names are cached with different extractors.
   */
  predicate Keyed(cache: map<string, Extractor>) {
    forall n :: n in cache ==> cache[n].name == n
  }

  /** `Extractor.engines` and `Extractor.instances`, with the configured engine kind. */
  class Registry {
    var engines: map<string, Engine>
    var instances: map<string, Extractor>
    /** The engine kind named in the configuration (`conf.extractor`). */
    const configured: string

    /** Every cache entry was built by `Get` for its own name, so no two names share an extractor. */
    ghost predicate Valid()
      reads this
    {
      Keyed(instances)
    }

    /** Module load: both maps start empty, then every kind in `EngineKinds` is registered. */
    constructor (configured: string)
      ensures Valid()
      ensures this.configured == configured
      ensures engines.Keys == {"regex", "parser"}
      ensures forall kind :: kind in engines ==> engines[kind] == Engine(EngineModule(kind))
      ensures instances == map[]
    {
      this.configured := configured;
      engines := map[];
      instances := map[];
      new;
      var i := 0;
      while i < |EngineKinds|
        invariant 0 <= i <= |EngineKinds|
        invariant engines.Keys == set j | 0 <= j < i :: EngineKinds[j]
        invariant forall kind :: kind in engines ==> engines[kind] == Engine(EngineModule(kind))
        invariant instances == map[]
      {
        var kind := EngineKinds[i];
        engines := engines[kind := Engine(EngineModule(kind))];
        i := i + 1;
      }
      assert EngineKinds[0] in engines && EngineKinds[1] in engines;
    }

    /**
     * `Extractor.get(name, dispatcher)`: the cached instance when there is
     * one, whatever `dispatcher` is; otherwise a new instance of the
     * configured engine, cached under `name`. When the configured kind is
     * not registered, `new undefined(...)` throws and nothing is cached.
     */
    method Get(name: string, dispatcher: Dispatcher) returns (r: Option<Extractor>)
      requires Valid()
      modifies this
      ensures Valid()
      ensures engines == old(engines)
      ensures name in old(instances) ==> r == Some(old(instances)[name]) && instances == old(instances)
      ensures name !in old(instances) && configured in engines ==>
        && r.Some? && fresh(r.value)
        && r.value.name == name && r.value.engine == engines[configured]
        && r.value.dispatcher == dispatcher && r.value.url == None
        && instances == old(instances)[name := r.value]
      ensures name !in old(instances) && configured !in engines ==> r == None && instances == old(instances)
    {
      if name in instances {
        return Some(instances[name]);
      }
      if configured !in engines {
        return None;
      }
      var instance := new Extractor(name, engines[configured], dispatcher);
      instances := instances[name := instance];
      r := Some(instance);
    }
  }
}
