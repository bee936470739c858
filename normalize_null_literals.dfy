/**
 * The rewrite rule of the null-literal normalization pass: in every
 * type-conversion context, a null literal is replaced by the default value of
 * the type the context requires. The traversal that finds the contexts
 * (`ConversionContextVisitor`) is not part of this model; the rule is.
 */
module NormalizeNullLiterals {

  import opened Ast

  /** The expressions the rule distinguishes: null literals and everything else. */
  datatype Expression =
    | NullLiteral(typeDescriptor: TypeDescriptor)
    | NumberLiteral(typeDescriptor: TypeDescriptor, value: int)
    | BooleanLiteral(truth: bool)
    | OtherExpression(id: nat)

  /**
   * The parts of the type model the rule consults and that this model takes as
   * given: `java.lang.Object`'s descriptor, `AstUtils.isNonNativeJsEnum` and
   * `TypeDescriptor.getDefaultValue`.
   */
  datatype TypeModel = TypeModel(
    javaLangObject: TypeDescriptor,
    isNonNativeJsEnum: TypeDescriptor -> bool,
    defaultValue: TypeDescriptor -> Expression)

  /** `rewriteTypeConversionContext(inferredTypeDescriptor, actualTypeDescriptor, expression)`. */
  function RewriteTypeConversionContext(model: TypeModel, inferredTypeDescriptor: TypeDescriptor,
                                        actualTypeDescriptor: TypeDescriptor, expression: Expression): (r: Expression)
    ensures !expression.NullLiteral? ==> r == expression
  {
    if expression.NullLiteral? then
      if model.isNonNativeJsEnum(inferredTypeDescriptor) then
        // Boxed JsEnum types are erased to java.lang.Object by the back end.
        model.defaultValue(model.javaLangObject)
      else
        model.defaultValue(inferredTypeDescriptor)
    else
      expression
  }

  /**
   * A null literal is replaced by a default value: `java.lang.Object`'s when the
   * context requires a non-native JsEnum, the required type's own otherwise;
   * whatever type the null literal itself carried is dropped.
   */
  lemma NullLiteralBecomesDefault(model: TypeModel, inferred: TypeDescriptor, actual: TypeDescriptor, literalType: TypeDescriptor)
    ensures model.isNonNativeJsEnum(inferred) ==>
      RewriteTypeConversionContext(model, inferred, actual, NullLiteral(literalType)) == model.defaultValue(model.javaLangObject)
    ensures !model.isNonNativeJsEnum(inferred) ==>
      RewriteTypeConversionContext(model, inferred, actual, NullLiteral(literalType)) == model.defaultValue(inferred)
  {
  }

  /** The result never depends on the actual type of the converted expression. */
  lemma IndependentOfActualType(model: TypeModel, inferred: TypeDescriptor, actual1: TypeDescriptor,
                                actual2: TypeDescriptor, expression: Expression)
    ensures RewriteTypeConversionContext(model, inferred, actual1, expression)
         == RewriteTypeConversionContext(model, inferred, actual2, expression)
  {
  }

  /**
   * Two null literals in the same context are rewritten alike, whatever types
   * they carried: the rule looks only at the context.
   */
  lemma IndependentOfLiteralType(model: TypeModel, inferred: TypeDescriptor, actual: TypeDescriptor,
                                 t1: TypeDescriptor, t2: TypeDescriptor)
    ensures RewriteTypeConversionContext(model, inferred, actual, NullLiteral(t1))
         == RewriteTypeConversionContext(model, inferred, actual, NullLiteral(t2))
  {
  }

  /**
   * Applying the rule again in the same context changes nothing: a default
   * value that is itself a null literal is mapped to the same default value,
   * and any other default value is left alone.
   */
  lemma RewriteIdempotent(model: TypeModel, inferred: TypeDescriptor, actual1: TypeDescriptor,
                          actual2: TypeDescriptor, expression: Expression)
    ensures var once := RewriteTypeConversionContext(model, inferred, actual1, expression);
            RewriteTypeConversionContext(model, inferred, actual2, once) == once
  {
  }
}
