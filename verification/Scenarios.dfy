/**
 * Discovery followed by dispatch: what a caller observes once LoadHandlers
 * has filled an empty cache from a list of assemblies.
 */
module Scenarios {
  import opened Wrappers
  import opened Exceptions
  import opened Reflection
  import opened Discovery
  import opened HandlerCache
  import opened Configuration
  import opened RequestHandlerWrapper

  /** The cache LoadHandlers builds from an empty cache. */
  function Loaded(assemblies: seq<Assembly>): Cache
  {
    TryAddAll(map[], Discover(assemblies))
  }

  /** A request type no concrete type handles is reported missing, whatever the provider and handlers. */
  lemma UnhandledRequestIsReported<V>(assemblies: seq<Assembly>, request: Request,
                                      resolve: TypeId -> Resolution,
                                      invoke: (MethodRef, Instance, Request) -> Completion<V>)
    requires forall info :: info in Discover(assemblies) ==> info.requestType != request.runtimeType
    ensures HandleRequest(Loaded(assemblies), request, resolve, invoke) == NoHandlerFound(request.runtimeType)
  {
    TryAddAllGrows(map[], Discover(assemblies));
  }

  /**
   * The handler dispatched to is the first one discovered for the request
   * type: a concrete type implementing a handler interface whose first
   * argument is that type. Later handlers for the same type are never used.
   */
  lemma DispatchReachesFirstDiscoveredHandler<V>(assemblies: seq<Assembly>, j: nat, request: Request,
                                                 resolve: TypeId -> Resolution,
                                                 invoke: (MethodRef, Instance, Request) -> Completion<V>)
    requires j < |Discover(assemblies)|
    requires Discover(assemblies)[j].requestType == request.runtimeType
    requires forall j' :: 0 <= j' < j ==> Discover(assemblies)[j'].requestType != request.runtimeType
    ensures DiscoveredIn(assemblies, Discover(assemblies)[j])
    ensures HandleRequest(Loaded(assemblies), request, resolve, invoke)
         == HandleRequest(map[request.runtimeType := EntryOf(Discover(assemblies)[j])], request, resolve, invoke)
  {
    FirstWins(map[], Discover(assemblies), j);
    DiscoverExactly(assemblies, Discover(assemblies)[j]);
  }

  /**
   * Every entry of the loaded cache is the handler type and method lookup of
   * a concrete type implementing a handler interface whose first generic
   * argument is the entry's key.
   */
  lemma LoadedEntryProvenance(assemblies: seq<Assembly>, k: TypeId)
    requires k in Loaded(assemblies)
    ensures exists a, t, i ::
      && a in assemblies && t in a.types && !t.isAbstract && i in t.interfaces
      && IsHandlerInterface(i) && i.args[0] == k
      && Loaded(assemblies)[k] == Entry(t.name, t.handleMethod)
  {
    AddedEntriesHaveASource(map[], Discover(assemblies), k);
    var info :| info in Discover(assemblies) && info.requestType == k && Loaded(assemblies)[k] == EntryOf(info);
    RecordProvenance(assemblies, info);
  }

  /** A type that is abstract wherever it occurs is never the handler of a loaded entry. */
  lemma AbstractNeverCached(assemblies: seq<Assembly>, h: TypeId)
    requires forall a, t :: a in assemblies && t in a.types && t.name == h ==> t.isAbstract
    ensures forall k :: k in Loaded(assemblies) ==> Loaded(assemblies)[k].handler != h
  {
    forall k | k in Loaded(assemblies)
      ensures Loaded(assemblies)[k].handler != h
    {
      AddedEntriesHaveASource(map[], Discover(assemblies), k);
      var info :| info in Discover(assemblies) && info.requestType == k && Loaded(assemblies)[k] == EntryOf(info);
      AbstractNeverContributes(assemblies, h);
    }
  }

  /** Adding the same assemblies twice yields the same cache as adding them once. */
  lemma DuplicateAssembliesAreHarmless(cache: Cache, assemblies: seq<Assembly>)
    ensures TryAddAll(cache, Discover(assemblies + assemblies)) == TryAddAll(cache, Discover(assemblies))
  {
    DiscoverAppend(assemblies, assemblies);
    TryAddAllAppend(cache, Discover(assemblies), Discover(assemblies));
    TryAddAllIdempotent(cache, Discover(assemblies));
  }

  // ---------------------------------------------------------------------
  // A greeting handler: Greet(name) is answered with "Hello, " + name.
  // ---------------------------------------------------------------------

  const GreetHandler: TypeDesc :=
    TypeDesc("GreetHandler", false,
             [Generic(RequestHandlerOfRequestResponse, ["Greet", "String"])],
             Some(MethodRef("GreetHandler", 0)))

  const M1: Assembly := Assembly("M1", [GreetHandler])

  function ProvideObject(t: TypeId): Resolution
  {
    Resolved(Object(1))
  }

  function Greet(m: MethodRef, instance: Instance, request: Request): Completion<string>
  {
    Completed("Hello, " + request.payload)
  }

  /** Configuring M1, loading its handlers and sending Greet("Ada") answers "Hello, Ada"; Ping has no handler. */
  method GreetAda() returns (greeting: Result<string>, ping: Result<string>)
    ensures greeting == Ok("Hello, Ada")
    ensures ping == NoHandlerFound("Ping")
  {
    var configuration := new CqrConfiguration();
    configuration.AddAssembly(M1);
    var collection := new ServiceCollection();
    var thrown := configuration.LoadHandlers(collection);
    var info := HandlerInfo("Greet", "GreetHandler", Some(MethodRef("GreetHandler", 0)));
    assert DiscoverInterfaces(GreetHandler, GreetHandler.interfaces) == [info] by {
      assert GreetHandler.interfaces[1..] == [];
    }
    assert DiscoverTypes(M1.types) == [info] by {
      assert M1.types[1..] == [];
    }
    assert Discover([M1]) == [info] by {
      assert [M1][1..] == [];
    }
    assert configuration.handlerCache == map["Greet" := Entry("GreetHandler", Some(MethodRef("GreetHandler", 0)))];
    assert "Hello, " + "Ada" == "Hello, Ada";
    greeting := HandleRequest(configuration.handlerCache, Request("Greet", "Ada"), ProvideObject, Greet);
    ping := HandleRequest(configuration.handlerCache, Request("Ping", ""), ProvideObject, Greet);
  }

  /** Loading handlers before any assembly was added fails and changes nothing. */
  method LoadWithoutAssemblies() returns (thrown: Option<Exception>, cached: Cache, registered: seq<TypeId>)
    ensures thrown == Some(NoAssembliesFound)
    ensures cached == map[] && registered == []
  {
    var configuration := new CqrConfiguration();
    var collection := new ServiceCollection();
    thrown := configuration.LoadHandlers(collection);
    cached, registered := configuration.handlerCache, collection.scoped;
  }
}
