/**
 * The `continue` statement node and its builder: the node is immutable, every
 * edit goes through a builder seeded from an existing node, and `Clone` copies
 * the node together with its label reference.
 */
module ContinueStatements {

  import opened Wrappers
  import opened Ast

  /** A statement label; label references point at one by identity. */
  class Label {
    const name: string

    constructor (name: string)
      ensures this.name == name
    {
      this.name := name;
    }
  }

  /** A reference to a label, itself a tree node. */
  class LabelReference {
    const target: Label

    constructor (target: Label)
      ensures this.target == target
    {
      this.target := target;
    }

    method Clone() returns (r: LabelReference)
      ensures fresh(r) && r.target == target
    {
      r := new LabelReference(target);
    }
  }

  /** `AstUtils.clone`: null stays null, a node is cloned. */
  method CloneLabelReference(reference: LabelReference?) returns (r: LabelReference?)
    ensures reference == null ==> r == null
    ensures reference != null ==> r != null && fresh(r) && r.target == reference.target
  {
    if reference == null {
      r := null;
    } else {
      r := reference.Clone();
    }
  }

  class ContinueStatement {
    const sourcePosition: Option<SourcePosition>
    const labelReference: LabelReference?

    constructor (sourcePosition: Option<SourcePosition>, labelReference: LabelReference?)
      ensures this.sourcePosition == sourcePosition && this.labelReference == labelReference
    {
      this.sourcePosition := sourcePosition;
      this.labelReference := labelReference;
    }

    /** A new statement at the same position, with a copy of the label reference. */
    method Clone() returns (r: ContinueStatement)
      ensures fresh(r) && r != this
      ensures r.sourcePosition == sourcePosition
      ensures labelReference == null ==> r.labelReference == null
      ensures labelReference != null ==>
                r.labelReference != null && fresh(r.labelReference) && r.labelReference != labelReference
                && r.labelReference.target == labelReference.target
    {
      var copy := CloneLabelReference(labelReference);
      r := new ContinueStatement(sourcePosition, copy);
    }

    method ToBuilder() returns (b: Builder)
      ensures fresh(b)
      ensures b.sourcePosition == sourcePosition && b.labelReference == labelReference
    {
      b := From(this);
    }
  }

  /** `ContinueStatement.newBuilder()`: both fields start out null. */
  method NewBuilder() returns (b: Builder)
    ensures fresh(b) && b.sourcePosition == None && b.labelReference == null
  {
    b := new Builder();
  }

  /** `Builder.from(statement)`: a builder seeded with the statement's fields. */
  method From(statement: ContinueStatement) returns (b: Builder)
    ensures fresh(b)
    ensures b.sourcePosition == statement.sourcePosition && b.labelReference == statement.labelReference
  {
    b := NewBuilder();
    b := b.SetSourcePosition(statement.sourcePosition);
    b := b.SetLabelReference(statement.labelReference);
  }

  class Builder {
    var labelReference: LabelReference?
    var sourcePosition: Option<SourcePosition>

    constructor ()
      ensures sourcePosition == None && labelReference == null
    {
      labelReference := null;
      sourcePosition := None;
    }

    /** Sets the position only, and returns this same builder for chaining. */
    method SetSourcePosition(sourcePosition: Option<SourcePosition>) returns (self: Builder)
      modifies this
      ensures self == this
      ensures this.sourcePosition == sourcePosition && labelReference == old(labelReference)
    {
      this.sourcePosition := sourcePosition;
      self := this;
    }

    /** Sets the label reference only, and returns this same builder for chaining. */
    method SetLabelReference(labelReference: LabelReference?) returns (self: Builder)
      modifies this
      ensures self == this
      ensures this.labelReference == labelReference && sourcePosition == old(sourcePosition)
    {
      this.labelReference := labelReference;
      self := this;
    }

    /** A new statement carrying the builder's current fields; the builder is untouched. */
    method Build() returns (s: ContinueStatement)
      ensures fresh(s)
      ensures s.sourcePosition == sourcePosition && s.labelReference == labelReference
    {
      s := new ContinueStatement(sourcePosition, labelReference);
    }
  }

  /**
   * `s.toBuilder().build()` is a new statement with the same position and the
   * very same label reference object (the builder does not clone it).
   */
  method RebuildUnchanged(s: ContinueStatement) returns (t: ContinueStatement)
    ensures fresh(t) && t != s
    ensures t.sourcePosition == s.sourcePosition && t.labelReference == s.labelReference
  {
    var b := s.ToBuilder();
    t := b.Build();
  }
}
