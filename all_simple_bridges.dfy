/**
 * Three of the `allsimplebridges` scenarios, each a small hierarchy of the
 * `JavaDispatch` model together with the calls its `test()` method makes.
 * Generic parameters appear erased: `get(T)` of `C1<T>` is `get(Object)`.
 */
module Tester135 {

  import opened Wrappers
  import opened JavaDispatch

  const I1: nat := 0
  const C1: nat := 1
  const C2: nat := 2

  /**
   * `interface I1 { String get(String) }`, `abstract class C1<T> { abstract get(T) }`,
   * `class C2 extends (raw) C1 implements I1` with `get(Object)` and `get(String)`.
   */
  const Types: Hierarchy := [
    TypeDecl("I1", true, None, [], map[StringParam := Abstract]),
    TypeDecl("C1", false, None, [], map[ObjectParam := Abstract]),
    TypeDecl("C2", false, Some(C1), [I1], map[ObjectParam := Returns("C2.get"), StringParam := Returns("C2.get")])
  ]

  /** C2 declares both signatures, overriding `C1.get(T)` and `I1.get(String)`. */
  lemma C2Table()
    ensures WellFormed(Types)
    ensures Table(Types, C2) == map[ObjectParam := Returns("C2.get"), StringParam := Returns("C2.get")]
  {
    TableOf(Types, C2, map[ObjectParam := Returns("C2.get"), StringParam := Returns("C2.get")]);
  }

  /** I1 has only its own abstract `get(String)`. */
  lemma I1Table()
    ensures WellFormed(Types) && Table(Types, I1) == map[StringParam := Abstract]
  {
    assert !InterfaceDeclares(Types, I1, ObjectParam, 0);
    assert !InterfaceDeclares(Types, I1, ObjectParam, 1);
    assert !InterfaceDeclares(Types, I1, ObjectParam, 2);
    assert InterfaceDeclarers(Types, I1, ObjectParam, 0) == [];
    assert InterfaceDeclarers(Types, I1, ObjectParam, 1) == [];
    assert InterfaceDeclarers(Types, I1, ObjectParam, 2) == [];
    assert InterfaceDeclarers(Types, I1, ObjectParam, 3) == [];
    TableOf(Types, I1, map[StringParam := Abstract]);
  }

  /** Raw C1 has only its own abstract, erased `get(Object)`; I1 is not one of its super-types. */
  lemma C1Table()
    ensures WellFormed(Types) && Table(Types, C1) == map[ObjectParam := Abstract]
  {
    assert !InterfaceDeclares(Types, C1, StringParam, 0);
    assert !InterfaceDeclares(Types, C1, StringParam, 1);
    assert !InterfaceDeclares(Types, C1, StringParam, 2);
    assert InterfaceDeclarers(Types, C1, StringParam, 0) == [];
    assert InterfaceDeclarers(Types, C1, StringParam, 1) == [];
    assert InterfaceDeclarers(Types, C1, StringParam, 2) == [];
    assert InterfaceDeclarers(Types, C1, StringParam, 3) == [];
    TableOf(Types, C1, map[ObjectParam := Abstract]);
  }

  /** `s.get(new Object())` with `s` of static type C2. */
  lemma GetObjectThroughC2()
    ensures WellFormed(Types) && Invoke(Types, C2, C2, ObjectArg) == Some("C2.get")
  {
    C2Table();
  }

  /** `s.get("")` through C2 selects `get(String)`. */
  lemma GetStringThroughC2()
    ensures WellFormed(Types)
    ensures Select(Table(Types, C2).Keys, StringArg) == Some(StringParam)
    ensures Invoke(Types, C2, C2, StringArg) == Some("C2.get")
  {
    C2Table();
  }

  /**
   * `((C1) s).get("")`: raw C1 only has the erased `get(Object)`, which
   * `C2.get(Object)` overrides.
   */
  lemma GetStringThroughRawC1()
    ensures WellFormed(Types)
    ensures Select(Table(Types, C1).Keys, StringArg) == Some(ObjectParam)
    ensures Invoke(Types, C2, C1, StringArg) == Some("C2.get")
  {
    C2Table();
    C1Table();
  }

  /** `((I1) s).get("")` reaches `C2.get(String)`. */
  lemma GetStringThroughI1()
    ensures WellFormed(Types)
    ensures Select(Table(Types, I1).Keys, StringArg) == Some(StringParam)
    ensures Invoke(Types, C2, I1, StringArg) == Some("C2.get")
  {
    C2Table();
    I1Table();
  }
}

module Tester473 {

  import opened Wrappers
  import opened JavaDispatch

  const C1: nat := 0
  const C2: nat := 1

  /** `class C1 { get(Object) }`, `class C2 extends C1 { get(String) }`. */
  const Types: Hierarchy := [
    TypeDecl("C1", false, None, [], map[ObjectParam := Returns("C1.get")]),
    TypeDecl("C2", false, Some(C1), [], map[StringParam := Returns("C2.get")])
  ]

  /**
   * C2's table keeps the inherited `C1.get(Object)` unchanged next to its own
   * `get(String)`: the narrower parameter does not override.
   */
  lemma C2Table()
    ensures WellFormed(Types)
    ensures Table(Types, C2) == map[ObjectParam := Returns("C1.get"), StringParam := Returns("C2.get")]
  {
    C1Table();
    assert !InterfaceDeclares(Types, C2, ObjectParam, 0);
    assert !InterfaceDeclares(Types, C2, ObjectParam, 1);
    assert InterfaceDeclarers(Types, C2, ObjectParam, 0) == [];
    assert InterfaceDeclarers(Types, C2, ObjectParam, 1) == [];
    assert InterfaceDeclarers(Types, C2, ObjectParam, 2) == [];
    TableOf(Types, C2, map[ObjectParam := Returns("C1.get"), StringParam := Returns("C2.get")]);
  }

  /** C1 has only its own `get(Object)`. */
  lemma C1Table()
    ensures WellFormed(Types) && Table(Types, C1) == map[ObjectParam := Returns("C1.get")]
  {
    assert !InterfaceDeclares(Types, C1, StringParam, 0);
    assert !InterfaceDeclares(Types, C1, StringParam, 1);
    assert InterfaceDeclarers(Types, C1, StringParam, 0) == [];
    assert InterfaceDeclarers(Types, C1, StringParam, 1) == [];
    assert InterfaceDeclarers(Types, C1, StringParam, 2) == [];
    TableOf(Types, C1, map[ObjectParam := Returns("C1.get")]);
  }

  /** `s.get("")` through C2 reaches `C2.get(String)`. */
  lemma GetStringThroughC2()
    ensures WellFormed(Types)
    ensures Select(Table(Types, C2).Keys, StringArg) == Some(StringParam)
    ensures Invoke(Types, C2, C2, StringArg) == Some("C2.get")
  {
    C2Table();
  }

  /** `((C1) s).get("")` selects `get(Object)`, which C2 inherits from C1. */
  lemma GetStringThroughC1()
    ensures WellFormed(Types)
    ensures Select(Table(Types, C1).Keys, StringArg) == Some(ObjectParam)
    ensures Invoke(Types, C2, C1, StringArg) == Some("C1.get")
  {
    C2Table();
    C1Table();
  }
}

module Tester673 {

  import opened Wrappers
  import opened JavaDispatch

  const I1: nat := 0
  const C1: nat := 1

  /** `interface I1 { default get(String) }`, `class C1 implements I1 { get(Object) }`. */
  const Types: Hierarchy := [
    TypeDecl("I1", true, None, [], map[StringParam := Returns("I1.get")]),
    TypeDecl("C1", false, None, [I1], map[ObjectParam := Returns("C1.get")])
  ]

  /**
   * C1's `get(Object)` does not override the default `I1.get(String)`: C1's
   * table holds both, the default as a separate entry.
   */
  lemma C1Table()
    ensures WellFormed(Types)
    ensures Table(Types, C1) == map[ObjectParam := Returns("C1.get"), StringParam := Returns("I1.get")]
  {
    forall d: nat | InterfaceDeclares(Types, C1, StringParam, d)
      ensures d == I1
    {
    }
    assert InterfaceDeclares(Types, C1, StringParam, I1);
    MostSpecificDefaultWins(Types, C1, StringParam, I1);
    TableOf(Types, C1, map[ObjectParam := Returns("C1.get"), StringParam := Returns("I1.get")]);
  }

  /** I1 has only its default `get(String)`. */
  lemma I1Table()
    ensures WellFormed(Types) && Table(Types, I1) == map[StringParam := Returns("I1.get")]
  {
    assert !InterfaceDeclares(Types, I1, ObjectParam, 0);
    assert !InterfaceDeclares(Types, I1, ObjectParam, 1);
    assert InterfaceDeclarers(Types, I1, ObjectParam, 0) == [];
    assert InterfaceDeclarers(Types, I1, ObjectParam, 1) == [];
    assert InterfaceDeclarers(Types, I1, ObjectParam, 2) == [];
    TableOf(Types, I1, map[StringParam := Returns("I1.get")]);
  }

  /** `s.get(new Object())` through C1 reaches `C1.get(Object)`. */
  lemma GetObjectThroughC1()
    ensures WellFormed(Types)
    ensures Invoke(Types, C1, C1, ObjectArg) == Some("C1.get")
  {
    C1Table();
  }

  /** `((I1) s).get("")` reaches the interface default. */
  lemma GetStringThroughI1()
    ensures WellFormed(Types)
    ensures Select(Table(Types, I1).Keys, StringArg) == Some(StringParam)
    ensures Invoke(Types, C1, I1, StringArg) == Some("I1.get")
  {
    C1Table();
    I1Table();
  }
}
