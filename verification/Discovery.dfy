/**
 * The handler discovery query of CqrConfiguration.LoadHandlers: every
 * non-abstract type of every assembly, every implemented interface whose
 * generic definition is IRequestHandler<> or IRequestHandler<,>, one
 * HandlerInfo per such interface, in enumeration order.
 */
module Discovery {
  import opened Wrappers
  import opened Reflection

  /** The anonymous record the query yields per matching interface. */
  datatype HandlerInfo = HandlerInfo(requestType: TypeId, handler: TypeId, entryPoint: Option<MethodRef>)

  /** `i.IsGenericType` and its generic definition is one of the two handler contracts. */
  predicate IsHandlerInterface(i: Interface)
  {
    i.Generic? && (i.definition == RequestHandlerOfRequest || i.definition == RequestHandlerOfRequestResponse)
  }

  /** The record for type `t` and its handler interface `i`: keyed by the first generic argument. */
  function InfoFor(t: TypeDesc, i: Interface): HandlerInfo
    requires IsHandlerInterface(i)
  {
    HandlerInfo(i.args[0], t.name, t.handleMethod)
  }

  /** The inner Where/Select over `ifaces`, a suffix of `t`'s interfaces. */
  function DiscoverInterfaces(t: TypeDesc, ifaces: seq<Interface>): seq<HandlerInfo>
  {
    if ifaces == [] then []
    else
      (if IsHandlerInterface(ifaces[0]) then [InfoFor(t, ifaces[0])] else [])
      + DiscoverInterfaces(t, ifaces[1..])
  }

  /** What one type contributes: nothing when abstract. */
  function DiscoverType(t: TypeDesc): seq<HandlerInfo>
  {
    if t.isAbstract then [] else DiscoverInterfaces(t, t.interfaces)
  }

  function DiscoverTypes(ts: seq<TypeDesc>): seq<HandlerInfo>
  {
    if ts == [] then [] else DiscoverType(ts[0]) + DiscoverTypes(ts[1..])
  }

  /** The whole query over the configured assemblies. */
  function Discover(assemblies: seq<Assembly>): seq<HandlerInfo>
  {
    if assemblies == [] then [] else DiscoverTypes(assemblies[0].types) + Discover(assemblies[1..])
  }

  /** The AddScoped(t) calls the query issues as a side effect: one per record, in order. */
  function ScopedLog(infos: seq<HandlerInfo>): (log: seq<TypeId>)
  {
    seq(|infos|, j requires 0 <= j < |infos| => infos[j].handler)
  }

  /** The query over a concatenation of assembly lists is the concatenation of the queries. */
  lemma {:induction false} DiscoverAppend(xs: seq<Assembly>, ys: seq<Assembly>)
    ensures Discover(xs + ys) == Discover(xs) + Discover(ys)
  {
    if xs == [] {
      assert xs + ys == ys;
    } else {
      var zs := xs + ys;
      assert zs[0] == xs[0] && zs[1..] == xs[1..] + ys;
      calc {
        Discover(zs);
        DiscoverTypes(xs[0].types) + Discover(xs[1..] + ys);
        { DiscoverAppend(xs[1..], ys); }
        DiscoverTypes(xs[0].types) + (Discover(xs[1..]) + Discover(ys));
        (DiscoverTypes(xs[0].types) + Discover(xs[1..])) + Discover(ys);
      }
    }
  }

  /** The registrations of the first `i + 1` records extend those of the first `i`. */
  lemma ScopedLogStep(infos: seq<HandlerInfo>, i: nat)
    requires i < |infos|
    ensures ScopedLog(infos[..i + 1]) == ScopedLog(infos[..i]) + [infos[i].handler]
  {
  }

  /** Number of handler interfaces in `ifaces`. */
  function CountHandlerInterfaces(ifaces: seq<Interface>): nat
  {
    if ifaces == [] then 0
    else (if IsHandlerInterface(ifaces[0]) then 1 else 0) + CountHandlerInterfaces(ifaces[1..])
  }

  // ---------------------------------------------------------------------
  // Reference definition: which records the query may yield.
  // ---------------------------------------------------------------------

  /** `info` is the record of a concrete type `t` for one of its handler interfaces. */
  ghost predicate Contributes(t: TypeDesc, info: HandlerInfo)
  {
    !t.isAbstract && exists i :: i in t.interfaces && IsHandlerInterface(i) && info == InfoFor(t, i)
  }

  /** `info` comes from some type of some assembly of `assemblies`. */
  ghost predicate DiscoveredIn(assemblies: seq<Assembly>, info: HandlerInfo)
  {
    exists a, t :: a in assemblies && t in a.types && Contributes(t, info)
  }

  lemma {:induction false} DiscoverInterfacesExactly(t: TypeDesc, ifaces: seq<Interface>, info: HandlerInfo)
    ensures info in DiscoverInterfaces(t, ifaces)
        <==> exists i :: i in ifaces && IsHandlerInterface(i) && info == InfoFor(t, i)
  {
    if ifaces != [] {
      DiscoverInterfacesExactly(t, ifaces[1..], info);
      assert forall i :: i in ifaces <==> i == ifaces[0] || i in ifaces[1..];
    }
  }

  lemma {:induction false} DiscoverTypesExactly(ts: seq<TypeDesc>, info: HandlerInfo)
    ensures info in DiscoverTypes(ts) <==> exists t :: t in ts && Contributes(t, info)
  {
    if ts != [] {
      DiscoverTypesExactly(ts[1..], info);
      assert DiscoverTypes(ts) == DiscoverType(ts[0]) + DiscoverTypes(ts[1..]);
      if info in DiscoverType(ts[0]) {
        DiscoverInterfacesExactly(ts[0], ts[0].interfaces, info);
        assert Contributes(ts[0], info);
      } else if info in DiscoverTypes(ts[1..]) {
        var t :| t in ts[1..] && Contributes(t, info);
        assert t in ts;
      } else {
        forall t | t in ts
          ensures !Contributes(t, info)
        {
          if t == ts[0] {
            DiscoverInterfacesExactly(ts[0], ts[0].interfaces, info);
          } else {
            assert t in ts[1..];
          }
        }
      }
    }
  }

  /** The query yields exactly the records of concrete types' handler interfaces (both directions). */
  lemma {:induction false} DiscoverExactly(assemblies: seq<Assembly>, info: HandlerInfo)
    ensures info in Discover(assemblies) <==> DiscoveredIn(assemblies, info)
  {
    if assemblies != [] {
      DiscoverExactly(assemblies[1..], info);
      DiscoverTypesExactly(assemblies[0].types, info);
      assert forall a :: a in assemblies <==> a == assemblies[0] || a in assemblies[1..];
    }
  }

  /**
   * Every record is keyed by the first generic argument of a handler
   * interface of a concrete type, names that type as handler, and carries
   * that type's HandleRequestAsync lookup, absent or not.
   */
  lemma RecordProvenance(assemblies: seq<Assembly>, info: HandlerInfo)
    requires info in Discover(assemblies)
    ensures exists a, t, i ::
      && a in assemblies && t in a.types && !t.isAbstract && i in t.interfaces
      && IsHandlerInterface(i) && info.requestType == i.args[0]
      && info.handler == t.name && info.entryPoint == t.handleMethod
  {
    DiscoverExactly(assemblies, info);
  }

  /** A type named `h` that is abstract everywhere it occurs never contributes a record, hence no registration either. */
  lemma AbstractNeverContributes(assemblies: seq<Assembly>, h: TypeId)
    requires forall a, t :: a in assemblies && t in a.types && t.name == h ==> t.isAbstract
    ensures forall info :: info in Discover(assemblies) ==> info.handler != h
    ensures h !in ScopedLog(Discover(assemblies))
  {
    forall info | info in Discover(assemblies)
      ensures info.handler != h
    {
      RecordProvenance(assemblies, info);
    }
  }

  lemma {:induction false} DiscoverInterfacesCount(t: TypeDesc, ifaces: seq<Interface>)
    ensures |DiscoverInterfaces(t, ifaces)| == CountHandlerInterfaces(ifaces)
    ensures forall info :: info in DiscoverInterfaces(t, ifaces) ==> info.handler == t.name
  {
    if ifaces != [] {
      DiscoverInterfacesCount(t, ifaces[1..]);
    }
  }

  /**
   * A concrete type is registered with AddScoped once per handler interface
   * it implements (twice when it implements two), an abstract one never.
   */
  lemma RegisteredOncePerHandlerInterface(t: TypeDesc)
    ensures ScopedLog(DiscoverType(t)) == seq(if t.isAbstract then 0 else CountHandlerInterfaces(t.interfaces), _ => t.name)
  {
    DiscoverInterfacesCount(t, t.interfaces);
  }
}
