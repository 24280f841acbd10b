/**
 * RequestHandlerWrapper: both HandleRequest overloads. Each looks the
 * request's runtime type up in the handler cache (read only), resolves the
 * cached handler type from the instance provider, invokes the cached
 * HandleRequestAsync method with the request as its only argument, and
 * rethrows a TargetInvocationException as its inner exception.
 *
 * The instance provider and the reflective invocation are parameters:
 * `resolve` is GetRequiredService on a fresh scope, `invoke` is
 * MethodInfo.Invoke followed by the cast and the await.
 */
module RequestHandlerWrapper {
  import opened Wrappers
  import opened Exceptions
  import opened Reflection
  import opened HandlerCache

  /** A request instance: its runtime type (GetType()) and its data. */
  datatype Request = Request(runtimeType: TypeId, payload: string)

  /** A resolved handler object; the instance provider may hand back null. */
  datatype Instance = Null | Object(handle: nat)

  /** What GetRequiredService does: return an instance, or throw. */
  datatype Resolution = Resolved(instance: Instance) | ResolveFailed(error: Exception)

  /**
   * How the invoked method's task ends: with a value, or with the exception
   * that reaches the catch clause. That exception is Wrap(x) when the method
   * throws x synchronously (Invoke wraps it), and x itself when the method
   * returns a task that faults with x (await rethrows it unwrapped).
   */
  datatype Completion<+V> = Completed(value: V) | Faulted(error: Exception)

  /** How a dispatch ends. */
  datatype Result<+V> =
    | Ok(value: V)
      /** NoHandlerFoundException, carrying the request's Type. */
    | NoHandlerFound(requestType: TypeId)
      /** InvalidOperationException naming the handler type that resolved to null. */
    | InvalidOp(handler: TypeId)
      /** Any other exception, as the caller observes it. */
    | Raised(error: Exception)

  /**
   * The catch clause: a TargetInvocationException is rethrown as its inner
   * exception, or as itself when that is null; any other exception is not
   * caught and passes unchanged.
   */
  function Rethrown(e: Exception): Exception
  {
    match e
    case TargetInvocation(Some(inner)) => inner
    case _ => e
  }

  /**
   * A failure thrown by the handler and wrapped by Invoke reaches the caller
   * exactly as thrown; a wrapper without an inner exception, and any
   * exception that is not a wrapper, are rethrown as they are.
   */
  lemma RethrownUndoesWrap(e: Exception)
    ensures Rethrown(Wrap(e)) == e
    ensures Rethrown(TargetInvocation(None)) == TargetInvocation(None)
    ensures !e.TargetInvocation? ==> Rethrown(e) == e
  {
  }

  /**
   * Only one layer is removed: when the exception reaching the catch clause
   * is a wrapper around a wrapper (a synchronous throw of a wrapper, wrapped
   * again by Invoke), the inner wrapper is surfaced.
   */
  lemma RethrownRemovesOneLayer(e: Exception)
    ensures Rethrown(Wrap(Wrap(e))) == Wrap(e)
  {
  }

  /** The try block: invoke the cached method on the instance with the request, mapping the failure. */
  function InvokeCached<V>(entry: Entry, instance: Instance, request: Request,
                           invoke: (MethodRef, Instance, Request) -> Completion<V>): (r: Result<V>)
    ensures r.Raised? || r.Ok?
    ensures r.Ok? <==> entry.entryPoint.Some? && invoke(entry.entryPoint.value, instance, request).Completed?
    ensures r.Ok? ==> r.value == invoke(entry.entryPoint.value, instance, request).value
    ensures entry.entryPoint.None? ==> r == Raised(NullReference)
    ensures entry.entryPoint.Some? && invoke(entry.entryPoint.value, instance, request).Faulted? ==>
      r == Raised(Rethrown(invoke(entry.entryPoint.value, instance, request).error))
  {
    match entry.entryPoint
    case None => Raised(NullReference)  // `Method?.Invoke` yields null and awaiting null throws
    case Some(m) =>
      match invoke(m, instance, request)
      case Completed(v) => Ok(v)
      case Faulted(e) => Raised(Rethrown(e))
  }

  /** HandleRequest<TResponse>(IRequest<TResponse>): the overload with a response. */
  function HandleRequest<V>(cache: Cache, request: Request, resolve: TypeId -> Resolution,
                            invoke: (MethodRef, Instance, Request) -> Completion<V>): (r: Result<V>)
    ensures r.NoHandlerFound? <==> request.runtimeType !in cache
    ensures r.NoHandlerFound? ==> r.requestType == request.runtimeType
    ensures !r.InvalidOp?
    ensures r.Ok? <==>
      && request.runtimeType in cache
      && resolve(cache[request.runtimeType].handler).Resolved?
      && cache[request.runtimeType].entryPoint.Some?
      && invoke(cache[request.runtimeType].entryPoint.value,
                resolve(cache[request.runtimeType].handler).instance, request).Completed?
    ensures r.Ok? ==>
      r.value == invoke(cache[request.runtimeType].entryPoint.value,
                        resolve(cache[request.runtimeType].handler).instance, request).value
  {
    if request.runtimeType !in cache then NoHandlerFound(request.runtimeType)
    else
      var entry := cache[request.runtimeType];
      match resolve(entry.handler)
      case ResolveFailed(e) => Raised(e)  // outside the try: never unwrapped
      case Resolved(instance) => InvokeCached(entry, instance, request, invoke)
  }

  /** HandleRequest(IRequest): the overload without a response, which also refuses a null handler. */
  function HandleRequestVoid(cache: Cache, request: Request, resolve: TypeId -> Resolution,
                             invoke: (MethodRef, Instance, Request) -> Completion<()>): (r: Result<()>)
    ensures r.NoHandlerFound? <==> request.runtimeType !in cache
    ensures r.NoHandlerFound? ==> r.requestType == request.runtimeType
    ensures r.InvalidOp? <==>
      request.runtimeType in cache && resolve(cache[request.runtimeType].handler) == Resolved(Null)
    ensures r.InvalidOp? ==> r.handler == cache[request.runtimeType].handler
    ensures r.Ok? <==>
      && request.runtimeType in cache
      && resolve(cache[request.runtimeType].handler).Resolved?
      && resolve(cache[request.runtimeType].handler).instance != Null
      && cache[request.runtimeType].entryPoint.Some?
      && invoke(cache[request.runtimeType].entryPoint.value,
                resolve(cache[request.runtimeType].handler).instance, request).Completed?
  {
    if request.runtimeType !in cache then NoHandlerFound(request.runtimeType)
    else
      var entry := cache[request.runtimeType];
      match resolve(entry.handler)
      case ResolveFailed(e) => Raised(e)
      case Resolved(instance) =>
        if instance == Null then InvalidOp(entry.handler)
        else InvokeCached(entry, instance, request, invoke)
  }

  // ---------------------------------------------------------------------
  // Properties of dispatch
  // ---------------------------------------------------------------------

  /**
   * A miss is reported before any resolution or invocation: the outcome is
   * the same whatever the instance provider and the handlers would do.
   */
  lemma MissResolvesAndInvokesNothing<V>(cache: Cache, request: Request,
                                         resolve1: TypeId -> Resolution, resolve2: TypeId -> Resolution,
                                         invoke1: (MethodRef, Instance, Request) -> Completion<V>,
                                         invoke2: (MethodRef, Instance, Request) -> Completion<V>,
                                         invokeVoid1: (MethodRef, Instance, Request) -> Completion<()>,
                                         invokeVoid2: (MethodRef, Instance, Request) -> Completion<()>)
    requires request.runtimeType !in cache
    ensures HandleRequest(cache, request, resolve1, invoke1) == HandleRequest(cache, request, resolve2, invoke2)
                                                            == NoHandlerFound(request.runtimeType)
    ensures HandleRequestVoid(cache, request, resolve1, invokeVoid1) == HandleRequestVoid(cache, request, resolve2, invokeVoid2)
                                                                    == NoHandlerFound(request.runtimeType)
  {
  }

  /**
   * On a hit, only the cached handler type is resolved and only the cached
   * method is invoked, on the resolved instance, with the request as its sole
   * argument: two environments that agree there (and caches that agree on
   * the request's type) give the same outcome.
   */
  lemma HitUsesOnlyCachedEntry<V>(cache1: Cache, cache2: Cache, request: Request,
                                  resolve1: TypeId -> Resolution, resolve2: TypeId -> Resolution,
                                  invoke1: (MethodRef, Instance, Request) -> Completion<V>,
                                  invoke2: (MethodRef, Instance, Request) -> Completion<V>)
    requires request.runtimeType in cache1 && request.runtimeType in cache2
    requires cache1[request.runtimeType] == cache2[request.runtimeType]
    requires resolve1(cache1[request.runtimeType].handler) == resolve2(cache1[request.runtimeType].handler)
    requires forall m: MethodRef, inst: Instance ::
      Some(m) == cache1[request.runtimeType].entryPoint ==> invoke1(m, inst, request) == invoke2(m, inst, request)
    ensures HandleRequest(cache1, request, resolve1, invoke1) == HandleRequest(cache2, request, resolve2, invoke2)
  {
  }

  /** The void overload likewise reads only the cached entry, its handler's resolution and its method's invocation. */
  lemma HitUsesOnlyCachedEntryVoid(cache1: Cache, cache2: Cache, request: Request,
                                   resolve1: TypeId -> Resolution, resolve2: TypeId -> Resolution,
                                   invoke1: (MethodRef, Instance, Request) -> Completion<()>,
                                   invoke2: (MethodRef, Instance, Request) -> Completion<()>)
    requires request.runtimeType in cache1 && request.runtimeType in cache2
    requires cache1[request.runtimeType] == cache2[request.runtimeType]
    requires resolve1(cache1[request.runtimeType].handler) == resolve2(cache1[request.runtimeType].handler)
    requires forall m: MethodRef, inst: Instance ::
      Some(m) == cache1[request.runtimeType].entryPoint ==> invoke1(m, inst, request) == invoke2(m, inst, request)
    ensures HandleRequestVoid(cache1, request, resolve1, invoke1) == HandleRequestVoid(cache2, request, resolve2, invoke2)
  {
  }

  /** The typed overload returns exactly the value the handler's task produced. */
  lemma ReturnsHandlerValue<V>(cache: Cache, request: Request, resolve: TypeId -> Resolution,
                               invoke: (MethodRef, Instance, Request) -> Completion<V>,
                               m: MethodRef, instance: Instance, v: V)
    requires request.runtimeType in cache
    requires resolve(cache[request.runtimeType].handler) == Resolved(instance)
    requires cache[request.runtimeType].entryPoint == Some(m)
    requires invoke(m, instance, request) == Completed(v)
    ensures HandleRequest(cache, request, resolve, invoke) == Ok(v)
  {
  }

  /**
   * A handler failure wrapped by Invoke surfaces as the handler's own
   * exception; a wrapper with no inner exception surfaces as itself; any
   * other failure surfaces unchanged. Both overloads agree.
   */
  lemma HandlerFailureSurfacesExactly(cache: Cache, request: Request, resolve: TypeId -> Resolution,
                                      invoke: (MethodRef, Instance, Request) -> Completion<()>,
                                      m: MethodRef, instance: Instance, e: Exception)
    requires request.runtimeType in cache
    requires resolve(cache[request.runtimeType].handler) == Resolved(instance) && instance != Null
    requires cache[request.runtimeType].entryPoint == Some(m)
    requires invoke(m, instance, request) == Faulted(e)
    ensures e.TargetInvocation? && e.inner.Some? ==> HandleRequestVoid(cache, request, resolve, invoke) == Raised(e.inner.value)
    ensures e == TargetInvocation(None) ==> HandleRequestVoid(cache, request, resolve, invoke) == Raised(e)
    ensures !e.TargetInvocation? ==> HandleRequestVoid(cache, request, resolve, invoke) == Raised(e)
    ensures HandleRequest(cache, request, resolve, invoke) == HandleRequestVoid(cache, request, resolve, invoke)
  {
  }

  /**
   * For any response type, a handler fault reaches the caller of the typed
   * overload through the catch clause: the inner exception of a wrapper,
   * otherwise the exception itself.
   */
  lemma HandlerFailureSurfacesExactlyTyped<V>(cache: Cache, request: Request, resolve: TypeId -> Resolution,
                                              invoke: (MethodRef, Instance, Request) -> Completion<V>,
                                              m: MethodRef, instance: Instance, e: Exception)
    requires request.runtimeType in cache
    requires resolve(cache[request.runtimeType].handler) == Resolved(instance)
    requires cache[request.runtimeType].entryPoint == Some(m)
    requires invoke(m, instance, request) == Faulted(e)
    ensures HandleRequest(cache, request, resolve, invoke) == Raised(Rethrown(e))
    ensures e.TargetInvocation? && e.inner.Some? ==> HandleRequest(cache, request, resolve, invoke) == Raised(e.inner.value)
    ensures !(e.TargetInvocation? && e.inner.Some?) ==> HandleRequest(cache, request, resolve, invoke) == Raised(e)
  {
  }

  /** A failure of the instance provider is raised outside the try and is never unwrapped, even when it is a wrapper. */
  lemma ResolverFailurePropagatesVerbatim<V>(cache: Cache, request: Request, resolve: TypeId -> Resolution,
                                             invoke: (MethodRef, Instance, Request) -> Completion<V>,
                                             invokeVoid: (MethodRef, Instance, Request) -> Completion<()>,
                                             e: Exception)
    requires request.runtimeType in cache
    requires resolve(cache[request.runtimeType].handler) == ResolveFailed(e)
    ensures HandleRequest(cache, request, resolve, invoke) == Raised(e)
    ensures HandleRequestVoid(cache, request, resolve, invokeVoid) == Raised(e)
  {
  }

  /** A cached entry without a HandleRequestAsync method never yields a value; nothing is invoked. */
  lemma AbsentMethodFails<V>(cache: Cache, request: Request, resolve: TypeId -> Resolution,
                             invoke1: (MethodRef, Instance, Request) -> Completion<V>,
                             invoke2: (MethodRef, Instance, Request) -> Completion<V>)
    requires request.runtimeType in cache && cache[request.runtimeType].entryPoint.None?
    ensures !HandleRequest(cache, request, resolve, invoke1).Ok?
    ensures resolve(cache[request.runtimeType].handler).Resolved? ==>
      HandleRequest(cache, request, resolve, invoke1) == Raised(NullReference)
    ensures HandleRequest(cache, request, resolve, invoke1) == HandleRequest(cache, request, resolve, invoke2)
  {
  }

  /**
   * The two overloads differ only in the null check: when the provider does
   * not hand back null, the void overload behaves as the typed one.
   */
  lemma OverloadsAgreeUnlessNull(cache: Cache, request: Request, resolve: TypeId -> Resolution,
                                 invoke: (MethodRef, Instance, Request) -> Completion<()>)
    requires request.runtimeType in cache ==> resolve(cache[request.runtimeType].handler) != Resolved(Null)
    ensures HandleRequestVoid(cache, request, resolve, invoke) == HandleRequest(cache, request, resolve, invoke)
  {
  }
}
