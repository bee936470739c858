/**
 * `arraycastsinglesideeffect.Main`: a cast to `Object[]` evaluates its operand
 * exactly once, so a side effect inside the operand happens once per cast.
 */
module ArrayCastSingleSideEffect {

  /** A Java value of static type `Object`. */
  datatype JavaValue =
    | NullValue
    | ObjectArray(elements: array<JavaValue>)
    | OtherObject(id: nat)

  datatype CastResult = CastSucceeded(value: JavaValue) | ClassCastException

  /** `(Object[]) v`: null and object arrays pass unchanged, anything else throws. */
  function CastToObjectArray(v: JavaValue): (r: CastResult)
    ensures r.CastSucceeded? <==> !v.OtherObject?
    ensures r.CastSucceeded? ==> r.value == v
  {
    if v.OtherObject? then ClassCastException else CastSucceeded(v)
  }

  /** An instance of `Main`, with its one instance field. */
  class MainObject {
    var sideEffectCount: int

    constructor ()
      ensures sideEffectCount == 0
    {
      sideEffectCount := 0;
    }

    /** Increments the counter and returns a new one-element `Object[]`. */
    method GetWithSideEffect() returns (r: JavaValue)
      modifies this
      ensures sideEffectCount == old(sideEffectCount) + 1
      ensures r.ObjectArray? && fresh(r.elements) && r.elements.Length == 1
    {
      sideEffectCount := sideEffectCount + 1;
      var a := new JavaValue[1](_ => NullValue);
      r := ObjectArray(a);
    }

    /** `(Object[]) getWithSideEffect()`: the operand is evaluated once, then cast. */
    method CastOfCall() returns (r: CastResult)
      modifies this
      ensures sideEffectCount == old(sideEffectCount) + 1
      ensures r.CastSucceeded? && r.value.ObjectArray? && r.value.elements.Length == 1
    {
      var operand := GetWithSideEffect();
      r := CastToObjectArray(operand);
    }
  }

  /**
   * `main`: three casts in a row. Each `assert` is one of the source's
   * `assertTrue` checks; `counts` holds the counter after each cast.
   */
  method RunMain() returns (counts: seq<int>)
    ensures counts == [1, 2, 3]
  {
    var main := new MainObject();
    var cast := main.CastOfCall();
    var obj := cast.value;
    assert main.sideEffectCount == 1;
    counts := [main.sideEffectCount];
    cast := main.CastOfCall();
    obj := cast.value;
    assert main.sideEffectCount == 2;
    counts := counts + [main.sideEffectCount];
    cast := main.CastOfCall();
    obj := cast.value;
    assert main.sideEffectCount == 3;
    counts := counts + [main.sideEffectCount];
  }
}
