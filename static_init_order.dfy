/**
 * Static initialization of `jsconstructor.StaticInitOrder`: the static field
 * initializers and static blocks run once, in declaration order, and share
 * the counter `counter`, which each of them post-increments.
 */
module StaticInitOrder {

  /** The static members of the class, in declaration order. */
  datatype StaticField = Counter | Field1 | Field2

  datatype StaticMethod = Test | InitializeField1 | InitializeField2

  datatype StaticMember =
    | FieldInitializer(field: StaticField)
    | StaticBlock(ordinal: nat)
    | MethodDeclaration(declared: StaticMethod)

  /** What the class declares, from top to bottom. */
  const Declarations: seq<StaticMember> := [
    FieldInitializer(Counter),
    MethodDeclaration(Test),
    FieldInitializer(Field1),
    FieldInitializer(Field2),
    StaticBlock(1),
    StaticBlock(2),
    MethodDeclaration(InitializeField1),
    MethodDeclaration(InitializeField2)
  ]

  /** The initialization actions: field initializers and blocks, interleaved exactly as declared. */
  function StaticActions(members: seq<StaticMember>): seq<StaticMember> {
    if members == [] then []
    else if members[0].MethodDeclaration? then StaticActions(members[1..])
    else [members[0]] + StaticActions(members[1..])
  }

  /** The actions are exactly the declared field initializers and blocks; methods are not actions. */
  lemma {:induction false} StaticActionsAreInitializers(members: seq<StaticMember>, a: StaticMember)
    ensures a in StaticActions(members) <==> a in members && !a.MethodDeclaration?
  {
    if members != [] {
      StaticActionsAreInitializers(members[1..], a);
      assert members == [members[0]] + members[1..];
    }
  }

  lemma DeclarationOrder()
    ensures StaticActions(Declarations) == [
      FieldInitializer(Counter), FieldInitializer(Field1), FieldInitializer(Field2),
      StaticBlock(1), StaticBlock(2)]
  {
  }

  /** The static fields as values, and the values the `counter++` expressions yielded so far. */
  datatype Statics = Statics(counter: int, field1: int, field2: int, observations: seq<int>)

  /** `counter++` on the values: the old counter is observed, and the counter goes up by one. */
  function PostIncrement(s: Statics): Statics {
    s.(counter := s.counter + 1, observations := s.observations + [s.counter])
  }

  /** The effect of one declaration during class initialization. A method declaration has none. */
  function Apply(s: Statics, a: StaticMember): Statics {
    match a
    case FieldInitializer(Counter) => s.(counter := 1)
    case FieldInitializer(Field1) => var t := PostIncrement(s); t.(field1 := t.counter)
    case FieldInitializer(Field2) => var t := PostIncrement(s); t.(field2 := t.counter)
    case StaticBlock(_) => PostIncrement(s)
    case MethodDeclaration(_) => s
  }

  /** The state after running `actions` one after another from `s`. */
  function Executed(s: Statics, actions: seq<StaticMember>): Statics
    decreases |actions|
  {
    if actions == [] then s
    else Apply(Executed(s, actions[..|actions| - 1]), actions[|actions| - 1])
  }

  /**
   * Whatever the static fields held before, running the class's initialization
   * actions in declaration order sees the increments as 1, 2, 3 and 4 (so every
   * `assertTrue` holds) and leaves `counter` 5, `field1` 2 and `field2` 3.
   */
  lemma InitializationResult(s: Statics)
    ensures Executed(s, StaticActions(Declarations))
         == Statics(5, 2, 3, s.observations + [1, 2, 3, 4])
  {
    var c, f1, f2, b1, b2 :=
      FieldInitializer(Counter), FieldInitializer(Field1), FieldInitializer(Field2), StaticBlock(1), StaticBlock(2);
    DeclarationOrder();
    assert [c, f1, f2, b1, b2][..4] == [c, f1, f2, b1];
    assert [c, f1, f2, b1][..3] == [c, f1, f2];
    assert [c, f1, f2][..2] == [c, f1];
    assert [c, f1][..1] == [c];
    assert [c][..0] == [];
    var o := s.observations;
    assert Executed(s, [c]) == s.(counter := 1);
    assert Executed(s, [c, f1]) == Statics(2, 2, s.field2, o + [1]);
    assert Executed(s, [c, f1, f2]) == Statics(3, 2, 3, o + [1] + [2]);
    assert Executed(s, [c, f1, f2, b1]) == Statics(4, 2, 3, o + [1] + [2] + [3]);
    assert Executed(s, [c, f1, f2, b1, b2]) == Statics(5, 2, 3, o + [1] + [2] + [3] + [4]);
    assert o + [1] + [2] + [3] + [4] == o + [1, 2, 3, 4];
  }

  /**
   * The class's static state. A new object holds the defaults every static
   * field has before initialization (all zero); `observations` records, in
   * order, the value each `counter++` yielded.
   */
  class StaticState {
    var counter: int
    var field1: int
    var field2: int
    var observations: seq<int>

    constructor ()
      ensures Snapshot() == Statics(0, 0, 0, [])
    {
      counter, field1, field2 := 0, 0, 0;
      observations := [];
    }

    /** The fields as a value. */
    function Snapshot(): Statics
      reads this
    {
      Statics(counter, field1, field2, observations)
    }

    /** `counter++`: yields the old value, increments, and records the value. */
    method PostIncrementCounter() returns (before: int)
      modifies this
      ensures before == old(counter) && counter == old(counter) + 1
      ensures observations == old(observations) + [before]
      ensures field1 == old(field1) && field2 == old(field2)
    {
      before := counter;
      counter := counter + 1;
      observations := observations + [before];
    }

    /** `initializeField1`: increments the counter and returns its new value. */
    method InitializeField1() returns (seen: int, r: int)
      modifies this
      ensures seen == old(counter) && counter == old(counter) + 1 && r == counter
      ensures observations == old(observations) + [seen]
      ensures field1 == old(field1) && field2 == old(field2)
    {
      seen := PostIncrementCounter();
      r := counter;
    }

    /** `initializeField2`: the same effect as `initializeField1`. */
    method InitializeField2() returns (seen: int, r: int)
      modifies this
      ensures seen == old(counter) && counter == old(counter) + 1 && r == counter
      ensures observations == old(observations) + [seen]
      ensures field1 == old(field1) && field2 == old(field2)
    {
      seen := PostIncrementCounter();
      r := counter;
    }

    /** Runs one declaration's initialization code. */
    method RunAction(a: StaticMember)
      modifies this
      ensures Snapshot() == Apply(old(Snapshot()), a)
    {
      var seen;
      match a
      case FieldInitializer(Counter) =>
        counter := 1;
      case FieldInitializer(Field1) =>
        seen, field1 := InitializeField1();
      case FieldInitializer(Field2) =>
        seen, field2 := InitializeField2();
      case StaticBlock(_) =>
        seen := PostIncrementCounter();
      case MethodDeclaration(_) =>
    }

    /**
     * The class initializer: runs the actions of `StaticActions(Declarations)`
     * one by one, in that order. All of the source's `assertTrue` checks hold,
     * so initialization completes.
     */
    method Initialize()
      modifies this
      ensures Snapshot() == Executed(old(Snapshot()), StaticActions(Declarations))
      ensures observations == old(observations) + [1, 2, 3, 4]
      ensures counter == 5 && field1 == 2 && field2 == 3
    {
      var actions := StaticActions(Declarations);
      for i := 0 to |actions|
        invariant Snapshot() == Executed(old(Snapshot()), actions[..i])
      {
        RunAction(actions[i]);
        assert actions[..i + 1][..i] == actions[..i];
      }
      assert actions[..|actions|] == actions;
      InitializationResult(old(Snapshot()));
    }

    /** `test()`: the three checks on the final static state. */
    method Test() returns (passed: bool)
      ensures passed <==> counter == 5 && field1 == 2 && field2 == 3
    {
      passed := counter == 5 && field1 == 2 && field2 == 3;
    }
  }

  /** After class initialization, `test()` passes, and the increments were seen as 1, 2, 3, 4. */
  method InitializeThenTest() returns (passed: bool, observations: seq<int>)
    ensures passed
    ensures observations == [1, 2, 3, 4]
  {
    var s := new StaticState();
    s.Initialize();
    passed := s.Test();
    observations := s.observations;
  }
}
