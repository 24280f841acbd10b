/**
 * Explicit type descriptors standing in for .NET reflection: an assembly is
 * the sequence of its types, a type lists the interfaces it implements and
 * what a by-name lookup of its HandleRequestAsync method yields.
 */
module Reflection {
  import opened Wrappers

  /** Identity of a runtime type (a System.Type), compared by value. */
  type TypeId = string

  /** Generic type definitions a constructed interface can come from. */
  datatype GenericDefinition =
      /** IRequestHandler<TRequest> */
    | RequestHandlerOfRequest
      /** IRequestHandler<TRequest, TResponse> */
    | RequestHandlerOfRequestResponse
      /** Any other generic interface definition. */
    | OtherDefinition(name: TypeId)

  /** An implemented interface: non-generic, or constructed from a definition and its type arguments. */
  datatype RawInterface =
    | NonGeneric(name: TypeId)
    | Generic(definition: GenericDefinition, args: seq<TypeId>)

  /** The runtime guarantees that a constructed generic interface has as many arguments as its definition has parameters. */
  predicate WellFormedInterface(i: RawInterface)
  {
    i.Generic? ==>
      match i.definition
      case RequestHandlerOfRequest => |i.args| == 1
      case RequestHandlerOfRequestResponse => |i.args| == 2
      case OtherDefinition(_) => |i.args| >= 1
  }

  type Interface = i: RawInterface | WellFormedInterface(i) witness NonGeneric("")

  /** A reflected method handle (System.Reflection.MethodInfo). */
  datatype MethodRef = MethodRef(declaringType: TypeId, token: nat)

  /**
   * A type of an assembly: its identity, whether it is abstract, the
   * interfaces it implements in GetInterfaces() order, and the result of
   * GetMethod("HandleRequestAsync") on it (None for a null MethodInfo).
   */
  datatype TypeDesc = TypeDesc(
    name: TypeId,
    isAbstract: bool,
    interfaces: seq<Interface>,
    handleMethod: Option<MethodRef>)

  /** An assembly, as the sequence GetTypes() returns. */
  datatype Assembly = Assembly(name: string, types: seq<TypeDesc>)
}
