/**
 * The pieces of the transpiler's program-tree model that several passes share:
 * source positions, type descriptors, method descriptors and the members of a type.
 */
module Ast {

  /** Provenance of a node; `NoPosition` is the transpiler's `SourcePosition.NONE`. */
  datatype SourcePosition = NoPosition | At(file: string, line: nat, column: nat)

  datatype TypeKind = ClassKind | InterfaceKind | EnumKind

  /**
   * A type descriptor. The transpiler interns descriptors, so two descriptors of
   * the same type are the same object and are compared with `==` on references;
   * a Dafny class gives exactly that reference identity.
   */
  class TypeDescriptor {
    const name: string
    const kind: TypeKind
    const superTypeDescriptor: TypeDescriptor?

    constructor (name: string, kind: TypeKind, superTypeDescriptor: TypeDescriptor?)
      ensures this.name == name && this.kind == kind
      ensures this.superTypeDescriptor == superTypeDescriptor
    {
      this.name := name;
      this.kind := kind;
      this.superTypeDescriptor := superTypeDescriptor;
    }

    predicate IsInterface() {
      kind == InterfaceKind
    }
  }

  /** The declaration a type descriptor stands for (what `Type.getDeclaration()` yields). */
  datatype TypeDeclaration = TypeDeclaration(qualifiedName: string)

  /**
   * A method descriptor. `mangledName` is the mangled name of the descriptor's
   * declaration, the name under which the method is emitted.
   */
  datatype MethodDescriptor = MethodDescriptor(
    mangledName: string,
    enclosingTypeDescriptor: TypeDescriptor,
    isAbstract: bool,
    parameterTypeDescriptors: seq<TypeDescriptor>)

  /** A parameter variable: its position in the parameter list and its type. */
  datatype Variable = Variable(index: nat, typeDescriptor: TypeDescriptor)

  /** A member of a type declaration. A method without a body is abstract. */
  datatype Member =
    | Method(descriptor: MethodDescriptor, parameters: seq<Variable>,
             hasBody: bool, sourcePosition: SourcePosition)
    | Field(fieldName: string, sourcePosition: SourcePosition)
}
