# CQR handler registry and dispatcher, modelled in Dafny

CQR is a small in-process mediator for .NET. Callers send request objects. The
library routes each request to the one handler registered for the request's
runtime type, invokes it, and returns its result. There are two pieces of logic:

- **Registry construction** (`CqrConfiguration`). Assemblies are added one at a
  time. `LoadHandlers` then scans every non-abstract type for implemented
  interfaces built from `IRequestHandler<>` or `IRequestHandler<,>`. Each
  such interface registers the type as a scoped service. It also yields a
  record keyed by the interface's first generic argument, the request type.
  Each record is `TryAdd`ed to the handler cache, and the first record for a
  key wins.
- **Dispatch** (`RequestHandlerWrapper.HandleRequest`, typed and void
  overloads). Dispatch looks up the request's runtime type in the cache. A
  miss throws `NoHandlerFoundException`. On a hit, it resolves the cached
  handler type from the service provider and invokes the cached
  `HandleRequestAsync` method with the request as its only argument. A
  `TargetInvocationException` is rethrown as its inner exception, or as itself
  when the inner exception is null.

Reflection is replaced by data (`Reflection.dfy`):
- An assembly is a sequence of type descriptors.
- A type descriptor gives the type's name, whether it is abstract, the
  interfaces it implements (a generic definition and its type arguments), and
  the result of `GetMethod("HandleRequestAsync")` (an `Option`).
- `Interface` is a subset type. A constructed handler interface always carries
  as many type arguments as its definition has parameters, because the runtime
  guarantees this. So taking the first generic argument is always defined.

Dependency injection is reduced to two things:
- `ServiceCollection`, an append-only log of `AddScoped` registrations.
- A `resolve` function, standing for `GetRequiredService` on a fresh scope,
  that yields an instance or throws. `GetRequiredService` itself throws rather
  than return null. A `Null` instance is still allowed so that the void
  overload's defensive null check (Core/RequestHandlerWrapper.cs:62-63) can be
  modelled.

`MethodInfo.Invoke`, together with the cast and the `await`, is an `invoke`
function. It yields the task's value or an exception, and that exception may be
the `TargetInvocation` wrapper `Invoke` adds.

Module layout:
- `Configuration.dfy`: the `CqrConfiguration` class, with a `seq` of assemblies
  and a `map` cache. `LoadHandlers` is a `while` loop over the pure discovery
  query in `Discovery.dfy`, and it inserts first-wins as `HandlerCache.dfy`
  specifies.
- `RequestHandlerWrapper.dfy`: dispatch, as pure functions over the cache. The
  cache is only read there, so dispatch cannot change it.
- `Scenarios.dfy`: loading followed by dispatch.

Points of the code's behaviour worth noting:
- The cache is kept even when `GetMethod` finds no `HandleRequestAsync`. Dispatch
  to such an entry awaits a null task and fails with a `NullReferenceException`.
- Only the void overload checks for a null handler. The typed overload passes a
  null instance on to the invocation.
- The resolution scope is never disposed.
- Assemblies form an ordered list. Which duplicate handler wins is decided by
  enumeration order.

## Model

| member | source | states |
|---|---|---|
| Configuration.CqrConfiguration.constructor | Core/CqrConfiguration.cs:16-18 | a new configuration has no assemblies and an empty handler cache |
| Configuration.CqrConfiguration.AddAssembly | Core/CqrConfiguration.cs:20-23 | appends exactly the given assembly at the end of the list; the cache is unchanged |
| Configuration.CqrConfiguration.LoadHandlers | Core/CqrConfiguration.cs:25-54 | with no assemblies it throws NoAssembliesFound and changes neither the cache nor the registrations; otherwise the cache becomes the first-wins insertion of every discovered record into the old cache, and the registration log grows by one entry per record, in order; the assemblies are unchanged |
| Configuration.ServiceCollection.AddScoped | Core/CqrConfiguration.cs:39 | appends one scoped registration to the log and keeps duplicates |
| Discovery.IsHandlerInterface | Core/CqrConfiguration.cs:34-36 | the filter on interfaces: generic, with definition IRequestHandler<> or IRequestHandler<,>; its meaning is stated by DiscoverExactly |
| Discovery.InfoFor | Core/CqrConfiguration.cs:40-45 | the record built per matching interface: its first generic argument, the type, and the type's HandleRequestAsync lookup; stated by RecordProvenance |
| Discovery.Discover | Core/CqrConfiguration.cs:30-47 | the whole discovery query in enumeration order; characterised in both directions by DiscoverExactly, and over concatenated lists by DiscoverAppend |
| Discovery.ScopedLog | Core/CqrConfiguration.cs:39 | the AddScoped calls the query issues, one per record in order; stated by RegisteredOncePerHandlerInterface and AbstractNeverContributes |
| Discovery.DiscoverExactly | Core/CqrConfiguration.cs:30-47 | a record is produced if and only if some assembly holds a non-abstract type with a handler interface whose first argument, type name and HandleRequestAsync lookup make up that record |
| Discovery.RecordProvenance | Core/CqrConfiguration.cs:33-44 | every record is keyed by the first generic argument (the request type, never the response type) of an IRequestHandler<> or IRequestHandler<,> interface of a concrete type; it names that type and carries its method lookup, absent or not |
| Discovery.AbstractNeverContributes | Core/CqrConfiguration.cs:32 | a type that is abstract wherever it occurs yields no record and no scoped registration |
| Discovery.DiscoverInterfacesCount | Core/CqrConfiguration.cs:33-46 | a type yields one record per handler interface it implements, each naming that type |
| Discovery.RegisteredOncePerHandlerInterface | Core/CqrConfiguration.cs:37-39 | a concrete type is registered as scoped once per handler interface, so twice when it implements two; an abstract type is never registered |
| Discovery.DiscoverAppend | Core/CqrConfiguration.cs:30-31 | the query over two lists of assemblies, one after the other, is the first query's records followed by the second's |
| HandlerCache.TryAdd | Core/CqrConfiguration.cs:51 | ConcurrentDictionary.TryAdd of one record; stated by TryAddNeverOverwrites |
| HandlerCache.TryAddAll | Core/CqrConfiguration.cs:49-52 | the foreach loop of TryAdds in record order; stated by TryAddAllGrows, FirstWins, AddedEntriesHaveASource and TryAddAllIdempotent |
| HandlerCache.TryAddNeverOverwrites | Core/CqrConfiguration.cs:51 | TryAdd leaves the key present and keeps every existing entry; it stores the new entry only when the key was absent |
| HandlerCache.TryAddAllGrows | Core/CqrConfiguration.cs:49-52 | the cache only grows: every earlier key keeps its earlier entry, and the new key set is the old one plus exactly the records' request types |
| HandlerCache.TryAddAllSnoc | Core/CqrConfiguration.cs:49-52 | one loop iteration: loading the first i+1 records is loading the first i and then TryAdd of record i |
| HandlerCache.FirstWins | Core/CqrConfiguration.cs:49-52 | for a key not cached before, the entry kept is that of the first record with that request type |
| HandlerCache.AddedEntriesHaveASource | Core/CqrConfiguration.cs:49-52 | every newly cached entry is the handler type and method of some record with that request type |
| HandlerCache.AllCachedIsNoop | Core/CqrConfiguration.cs:51 | when every request type is already cached, the loop changes nothing |
| HandlerCache.TryAddAllAppend | Core/CqrConfiguration.cs:49-52 | loading two runs of records in one pass is loading the first run and then the second |
| HandlerCache.TryAddAllIdempotent | Core/CqrConfiguration.cs:18 | loading the same records again leaves the cache unchanged |
| RequestHandlerWrapper.HandleRequest | Core/RequestHandlerWrapper.cs:30-49 | the typed overload reports NoHandlerFound, carrying the request's type, exactly when that type is not cached; it never reports InvalidOp; it returns Ok exactly when the cached handler resolves, the cached method exists and the invocation completes, and then returns the invocation's value |
| RequestHandlerWrapper.HandleRequestVoid | Core/RequestHandlerWrapper.cs:51-73 | the void overload reports NoHandlerFound exactly on a miss, and InvalidOp naming the cached handler type exactly when the provider hands back null; it completes exactly when the handler is non-null, the method exists and the invocation completes |
| RequestHandlerWrapper.Rethrown | Core/RequestHandlerWrapper.cs:45-48 | the catch clause `throw e.InnerException ?? e` for a TargetInvocationException, and no catch for anything else; stated by RethrownUndoesWrap and RethrownRemovesOneLayer |
| RequestHandlerWrapper.InvokeCached | Core/RequestHandlerWrapper.cs:41-48 | the try block: without a cached method it raises NullReference (awaiting the null that `Method?.Invoke` yields); otherwise it is Ok exactly when the invocation completes, with the invocation's value, and a fault Faulted(e) becomes Raised(Rethrown(e)); it never reports NoHandlerFound or InvalidOp |
| RequestHandlerWrapper.RethrownUndoesWrap | Core/RequestHandlerWrapper.cs:45-48 | a handler exception wrapped by Invoke is rethrown exactly as the handler threw it; a wrapper with a null inner exception, and any other exception, are rethrown unchanged |
| RequestHandlerWrapper.RethrownRemovesOneLayer | Core/RequestHandlerWrapper.cs:45-48 | only one layer of wrapping is removed |
| RequestHandlerWrapper.MissResolvesAndInvokesNothing | Core/RequestHandlerWrapper.cs:32-35 | on a miss, both overloads report NoHandlerFound for the request's type whatever the provider and the handlers would do, so nothing is resolved or invoked |
| RequestHandlerWrapper.HitUsesOnlyCachedEntry | Core/RequestHandlerWrapper.cs:34-43 | the outcome depends only on the cache entry for the request's type, on how the provider resolves that entry's handler type, and on invoking that entry's method with the request |
| RequestHandlerWrapper.HitUsesOnlyCachedEntryVoid | Core/RequestHandlerWrapper.cs:55-67 | the void overload's outcome depends only on the cache entry for the request's type, on how that entry's handler type resolves, and on invoking that entry's method with the request |
| RequestHandlerWrapper.ReturnsHandlerValue | Core/RequestHandlerWrapper.cs:43 | the typed overload returns exactly the value produced by the handler's task |
| RequestHandlerWrapper.HandlerFailureSurfacesExactly | Core/RequestHandlerWrapper.cs:65-72 | a wrapped handler failure surfaces as its inner exception; a null-inner wrapper or a non-wrapper failure surfaces as itself; both overloads agree |
| RequestHandlerWrapper.HandlerFailureSurfacesExactlyTyped | Core/RequestHandlerWrapper.cs:41-48 | for any response type, a handler fault reaches the typed overload's caller as the inner exception of a wrapper, and as itself otherwise |
| RequestHandlerWrapper.ResolverFailurePropagatesVerbatim | Core/RequestHandlerWrapper.cs:37-39 | an exception from the provider is raised outside the try block and reaches the caller unchanged, even when it is a wrapper |
| RequestHandlerWrapper.AbsentMethodFails | Core/RequestHandlerWrapper.cs:43 | an entry without a HandleRequestAsync method never yields a value; once its handler resolves, the outcome is a NullReferenceException whatever the handler would do |
| RequestHandlerWrapper.OverloadsAgreeUnlessNull | Core/RequestHandlerWrapper.cs:59-63 | when the provider does not hand back null, the void overload behaves exactly like the typed one |
| Scenarios.UnhandledRequestIsReported | Core/RequestHandlerWrapper.cs:34-35 | after loading, a request type that no concrete type handles is reported as NoHandlerFound |
| Scenarios.DispatchReachesFirstDiscoveredHandler | Core/CqrConfiguration.cs:49-52 | after loading, dispatch behaves as if only the first discovered record for the request type were cached, and that record comes from a concrete handler type for that request type |
| Scenarios.LoadedEntryProvenance | Core/CqrConfiguration.cs:30-52 | every entry of the loaded cache is the handler type and method lookup of a concrete type implementing a handler interface whose first generic argument is the entry's key |
| Scenarios.AbstractNeverCached | Core/CqrConfiguration.cs:32 | a type that is abstract wherever it occurs is never the handler of a loaded entry |
| Scenarios.DuplicateAssembliesAreHarmless | Core/CqrConfiguration.cs:20-23 | adding the same assemblies twice yields the same cache as adding them once |
| Scenarios.GreetAda | Core/RequestHandlerWrapper.cs:30-49 | after a greeting handler's assembly is added and loaded, Greet("Ada") returns "Hello, Ada" and Ping is reported as NoHandlerFound |
| Scenarios.LoadWithoutAssemblies | Core/CqrConfiguration.cs:27-28 | loading before any assembly was added throws NoAssembliesFound and leaves the cache and the registrations empty |

## Left out

- Reflection itself is not modelled: `GetTypes`, `GetInterfaces`, `GetGenericTypeDefinition`, `GetMethod` and `Invoke` are replaced by type descriptors and an `invoke` function. The `AmbiguousMatchException` that `GetMethod` throws on overloaded names is not modelled; the method lookup is a given `Option`.
- Dependency injection is reduced to a registration log and a `resolve` function. Scope creation and lifetime, `AddSingleton`, and the scope the code never disposes are not modelled.
- `async`/`Task`/`await` are not modelled: dispatch is synchronous. `Faulted(e)` is the exception that reaches the catch clause: `Wrap(x)` when the handler throws `x` synchronously, and `x` itself when its task faults with `x`; the model does not distinguish the two beyond that. An invalid cast of the returned task is one of the failures `invoke` may report.
- `ConcurrentDictionary` thread-safety and concurrent dispatch are not modelled: the cache is a sequential map with first-wins insert.
- `Core/Cqr.cs` (a facade that forwards to `HandleRequest`) and `Extensions/CqrExtension.cs` (DI wiring through `AddCQR`) are not part of this model.
- A null request is not modelled: `request.GetType()` (Core/RequestHandlerWrapper.cs:32 and 53) would throw a NullReferenceException, but a `Request` here is a value that always has a runtime type.
- A null assembly passed to `AddAssembly` is not modelled: it would be appended and make `LoadHandlers` throw when it calls `GetTypes()`, but an `Assembly` here is a value and cannot be null.
- Exception messages (`GetType().Name`, the handler's `Name` in the InvalidOperationException text) are not modelled; the errors carry the type identity instead.
