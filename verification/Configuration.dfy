/**
 * CqrConfiguration: the assemblies list that AddAssembly appends to and the
 * handler cache that LoadHandlers fills, plus the service collection whose
 * AddScoped registrations LoadHandlers issues.
 */
module Configuration {
  import opened Wrappers
  import opened Exceptions
  import opened Reflection
  import opened Discovery
  import opened HandlerCache

  /** The dependency-injection service collection, reduced to its log of scoped registrations. */
  class ServiceCollection {
    var scoped: seq<TypeId>

    constructor ()
      ensures scoped == []
    {
      scoped := [];
    }

    /** IServiceCollection.AddScoped(t): appends one registration; duplicates are kept. */
    method AddScoped(t: TypeId)
      modifies this
      ensures scoped == old(scoped) + [t]
    {
      scoped := scoped + [t];
    }
  }

  class CqrConfiguration {
    var assemblies: seq<Assembly>
    var handlerCache: Cache

    constructor ()
      ensures assemblies == [] && handlerCache == map[]
    {
      assemblies := [];
      handlerCache := map[];
    }

    /** Appends exactly one assembly at the end; the cache is untouched. */
    method AddAssembly(assembly: Assembly)
      modifies this
      ensures assemblies == old(assemblies) + [assembly]
      ensures handlerCache == old(handlerCache)
    {
      assemblies := assemblies + [assembly];
    }

    /**
     * Refuses to run without assemblies (NoAssembliesFoundException, nothing
     * changed); otherwise registers each discovered handler type as scoped,
     * once per matching interface, and TryAdds each record to the cache in
     * enumeration order.
     */
    method LoadHandlers(collection: ServiceCollection) returns (thrown: Option<Exception>)
      modifies this, collection
      ensures assemblies == old(assemblies)
      ensures thrown.Some? <==> old(assemblies) == []
      ensures thrown.Some? ==>
        && thrown.value == NoAssembliesFound
        && handlerCache == old(handlerCache)
        && collection.scoped == old(collection.scoped)
      ensures thrown.None? ==>
        && handlerCache == TryAddAll(old(handlerCache), Discover(assemblies))
        && collection.scoped == old(collection.scoped) + ScopedLog(Discover(assemblies))
    {
      if |assemblies| == 0 {
        return Some(NoAssembliesFound);
      }
      var handlerInfo := Discover(assemblies);
      ghost var cache0, log0 := handlerCache, collection.scoped;
      var i := 0;
      while i < |handlerInfo|
        invariant 0 <= i <= |handlerInfo|
        invariant assemblies == old(assemblies)
        invariant handlerCache == TryAddAll(cache0, handlerInfo[..i])
        invariant collection.scoped == log0 + ScopedLog(handlerInfo[..i])
      {
        var handler := handlerInfo[i];
        // the query's Select runs AddScoped as each record is enumerated
        collection.AddScoped(handler.handler);
        if handler.requestType !in handlerCache {
          handlerCache := handlerCache[handler.requestType := EntryOf(handler)];
        }
        TryAddAllSnoc(cache0, handlerInfo, i);
        ScopedLogStep(handlerInfo, i);
        i := i + 1;
      }
      assert handlerInfo[..i] == handlerInfo;
      thrown := None;
    }
  }
}
