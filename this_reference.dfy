/** The `this` reference expression node. */
module ThisReferences {

  import opened Ast

  class ThisReference {
    const typeDescriptor: TypeDescriptor
    const isQualified: bool

    constructor (typeDescriptor: TypeDescriptor, isQualified: bool)
      ensures this.typeDescriptor == typeDescriptor && this.isQualified == isQualified
    {
      this.typeDescriptor := typeDescriptor;
      this.isQualified := isQualified;
    }

    /** The one-argument constructor: an unqualified `this`. */
    constructor Unqualified(typeDescriptor: TypeDescriptor)
      ensures this.typeDescriptor == typeDescriptor && !isQualified
    {
      this.typeDescriptor := typeDescriptor;
      this.isQualified := false;
    }

    /**
     * A new node, distinct from this one, with the same qualification and the
     * very same type descriptor object: descriptors are shared, never copied.
     */
    method Clone() returns (r: ThisReference)
      ensures fresh(r) && r != this
      ensures r.typeDescriptor == typeDescriptor && r.isQualified == isQualified
    {
      r := new ThisReference(typeDescriptor, isQualified);
    }
  }
}
