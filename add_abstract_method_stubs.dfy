/**
 * The normalization pass that redeclares, on an abstract class, every abstract
 * interface method the class does not declare itself, as a bodiless stub.
 *
 * The pass itself (`Type.ApplyTo`) is a loop that appends to the type's member
 * list; `AddStubs` is the same fold written as a function, and the lemmas below
 * state what the pass guarantees about it. The type model's method-set view
 * (`getPolymorphicMethods`) and `isMemberOf` are not part of this model: the
 * pass receives the former as a sequence and the latter as a predicate.
 */
module AddAbstractMethodStubs {

  import opened Ast

  /** One parameter variable per type, in order (`AstUtils.createParameterVariables`). */
  function CreateParameterVariables(types: seq<TypeDescriptor>): (vs: seq<Variable>)
    ensures |vs| == |types|
    ensures forall i :: 0 <= i < |vs| ==> vs[i] == Variable(i, types[i])
  {
    seq(|types|, i requires 0 <= i < |types| => Variable(i, types[i]))
  }

  /**
   * The stub for interface method `m` on the type described by `td`: the
   * descriptor of `m` moved to `td` and made abstract (`makeAbstractStub`),
   * fresh parameters of `m`'s parameter types, no body, no source position.
   */
  function Stub(td: TypeDescriptor, m: MethodDescriptor): Member {
    Method(m.(enclosingTypeDescriptor := td, isAbstract := true),
           CreateParameterVariables(m.parameterTypeDescriptors), false, NoPosition)
  }

  /** Some method among `members` is emitted under `mangledName` (`Type.containsMethod`). */
  predicate DeclaresMethod(members: seq<Member>, mangledName: string) {
    exists k :: 0 <= k < |members| && members[k].Method? && members[k].descriptor.mangledName == mangledName
  }

  /** The filter chain: abstract, not a member of the declaration, declared by an interface. */
  predicate IsCandidate(m: MethodDescriptor, declaration: TypeDeclaration,
                        isMemberOf: (MethodDescriptor, TypeDeclaration) -> bool) {
    m.isAbstract && !isMemberOf(m, declaration) && m.enclosingTypeDescriptor.IsInterface()
  }

  /** The polymorphic methods that pass the filter chain, in stream order. */
  function Candidates(ms: seq<MethodDescriptor>, declaration: TypeDeclaration,
                      isMemberOf: (MethodDescriptor, TypeDeclaration) -> bool): (cs: seq<MethodDescriptor>)
    ensures forall m :: m in cs ==> m in ms && IsCandidate(m, declaration, isMemberOf)
    ensures forall m :: m in ms && IsCandidate(m, declaration, isMemberOf) ==> m in cs
    ensures |cs| <= |ms|
  {
    if ms == [] then []
    else
      var rest := Candidates(ms[1..], declaration, isMemberOf);
      if IsCandidate(ms[0], declaration, isMemberOf) then [ms[0]] + rest else rest
  }

  /**
   * The `forEach` of the pass as a fold: for each candidate in turn, append its
   * stub unless the members so far (including stubs appended earlier in the
   * same run) already declare its mangled name.
   */
  function AddStubs(td: TypeDescriptor, members: seq<Member>, ms: seq<MethodDescriptor>): seq<Member>
    decreases |ms|
  {
    if ms == [] then members
    else
      var m := ms[0];
      AddStubs(td, if DeclaresMethod(members, m.mangledName) then members else members + [Stub(td, m)], ms[1..])
  }

  /** The existing members stay where they are; the pass only appends. */
  lemma {:induction false} AddStubsKeepsMembers(td: TypeDescriptor, members: seq<Member>, ms: seq<MethodDescriptor>)
    ensures |members| <= |AddStubs(td, members, ms)|
    ensures AddStubs(td, members, ms)[..|members|] == members
    decreases |ms|
  {
    if ms != [] {
      var m := ms[0];
      var next := if DeclaresMethod(members, m.mangledName) then members else members + [Stub(td, m)];
      AddStubsKeepsMembers(td, next, ms[1..]);
      assert next[..|members|] == members;
    }
  }

  /** Declaring a mangled name survives the pass. */
  lemma DeclaresMethodPrefix(prefix: seq<Member>, all: seq<Member>, mangledName: string)
    requires |prefix| <= |all| && all[..|prefix|] == prefix
    requires DeclaresMethod(prefix, mangledName)
    ensures DeclaresMethod(all, mangledName)
  {
    var k :| 0 <= k < |prefix| && prefix[k].Method? && prefix[k].descriptor.mangledName == mangledName;
    assert all[k] == prefix[k];
  }

  /** Every appended member is the stub of one of the candidates. */
  lemma {:induction false} AddStubsAddsOnlyStubs(td: TypeDescriptor, members: seq<Member>, ms: seq<MethodDescriptor>, k: nat)
    requires |members| <= k < |AddStubs(td, members, ms)|
    ensures exists m :: m in ms && AddStubs(td, members, ms)[k] == Stub(td, m)
    decreases |ms|
  {
    var r := AddStubs(td, members, ms);
    if ms == [] {
      assert false;
    } else {
      var m := ms[0];
      if DeclaresMethod(members, m.mangledName) {
        AddStubsAddsOnlyStubs(td, members, ms[1..], k);
        var w :| w in ms[1..] && r[k] == Stub(td, w);
        assert w in ms;
      } else {
        var next := members + [Stub(td, m)];
        if k == |members| {
          AddStubsKeepsMembers(td, next, ms[1..]);
          assert r[k] == next[k];
          assert r[k] == Stub(td, m);
        } else {
          AddStubsAddsOnlyStubs(td, next, ms[1..], k);
          var w :| w in ms[1..] && r[k] == Stub(td, w);
          assert w in ms;
        }
      }
    }
  }

  /**
   * Every appended member is a method whose mangled name no member before it
   * declares: neither an original member nor a stub appended earlier in the run.
   */
  lemma {:induction false} AddStubsAppendsOnlyNewNames(td: TypeDescriptor, members: seq<Member>, ms: seq<MethodDescriptor>, k: nat)
    requires |members| <= k < |AddStubs(td, members, ms)|
    ensures AddStubs(td, members, ms)[k].Method?
    ensures !DeclaresMethod(AddStubs(td, members, ms)[..k], AddStubs(td, members, ms)[k].descriptor.mangledName)
    decreases |ms|
  {
    var r := AddStubs(td, members, ms);
    if ms == [] {
      assert false;
    } else {
      var m := ms[0];
      if DeclaresMethod(members, m.mangledName) {
        AddStubsAppendsOnlyNewNames(td, members, ms[1..], k);
      } else {
        var next := members + [Stub(td, m)];
        if k == |members| {
          AddStubsKeepsMembers(td, next, ms[1..]);
          assert r[k] == next[k] == Stub(td, m);
          assert r[..k] == next[..k] == members;
        } else {
          AddStubsAppendsOnlyNewNames(td, next, ms[1..], k);
        }
      }
    }
  }

  /** No stub may carry a mangled name that the original members already declare. */
  lemma NoStubForDeclaredName(td: TypeDescriptor, members: seq<Member>, ms: seq<MethodDescriptor>, k: nat)
    requires |members| <= k < |AddStubs(td, members, ms)|
    ensures AddStubs(td, members, ms)[k].Method?
    ensures !DeclaresMethod(members, AddStubs(td, members, ms)[k].descriptor.mangledName)
  {
    var r := AddStubs(td, members, ms);
    AddStubsAppendsOnlyNewNames(td, members, ms, k);
    AddStubsKeepsMembers(td, members, ms);
    var name := r[k].descriptor.mangledName;
    if DeclaresMethod(members, name) {
      assert r[..k][..|members|] == members;
      DeclaresMethodPrefix(members, r[..k], name);
      assert false;
    }
  }

  /** One run never appends two members with the same mangled name. */
  lemma AddedNamesDistinct(td: TypeDescriptor, members: seq<Member>, ms: seq<MethodDescriptor>, j: nat, k: nat)
    requires |members| <= j < k < |AddStubs(td, members, ms)|
    ensures AddStubs(td, members, ms)[j].Method? && AddStubs(td, members, ms)[k].Method?
    ensures AddStubs(td, members, ms)[j].descriptor.mangledName != AddStubs(td, members, ms)[k].descriptor.mangledName
  {
    var r := AddStubs(td, members, ms);
    AddStubsAppendsOnlyNewNames(td, members, ms, j);
    AddStubsAppendsOnlyNewNames(td, members, ms, k);
    assert r[..k][j] == r[j];
  }

  /** After the pass, every candidate's mangled name is declared by the type. */
  lemma {:induction false} AddStubsCoversCandidates(td: TypeDescriptor, members: seq<Member>, ms: seq<MethodDescriptor>)
    ensures forall m :: m in ms ==> DeclaresMethod(AddStubs(td, members, ms), m.mangledName)
    decreases |ms|
  {
    if ms != [] {
      var m := ms[0];
      var next := if DeclaresMethod(members, m.mangledName) then members else members + [Stub(td, m)];
      var r := AddStubs(td, next, ms[1..]);
      AddStubsCoversCandidates(td, next, ms[1..]);
      assert DeclaresMethod(next, m.mangledName) by {
        if !DeclaresMethod(members, m.mangledName) {
          assert next[|members|] == Stub(td, m);
        }
      }
      AddStubsKeepsMembers(td, next, ms[1..]);
      DeclaresMethodPrefix(next, r, m.mangledName);
      forall w | w in ms ensures DeclaresMethod(r, w.mangledName) {
        if w != m {
          assert w in ms[1..];
        }
      }
    }
  }

  /** When every candidate's name is already declared, the pass adds nothing. */
  lemma {:induction false} AddStubsNoOpWhenAllDeclared(td: TypeDescriptor, members: seq<Member>, ms: seq<MethodDescriptor>)
    requires forall m :: m in ms ==> DeclaresMethod(members, m.mangledName)
    ensures AddStubs(td, members, ms) == members
    decreases |ms|
  {
    if ms != [] {
      assert ms[0] in ms;
      AddStubsNoOpWhenAllDeclared(td, members, ms[1..]);
    }
  }

  /** Running the stub fold a second time over the same candidates adds nothing. */
  lemma AddStubsIdempotent(td: TypeDescriptor, members: seq<Member>, ms: seq<MethodDescriptor>)
    ensures AddStubs(td, AddStubs(td, members, ms), ms) == AddStubs(td, members, ms)
  {
    AddStubsCoversCandidates(td, members, ms);
    AddStubsNoOpWhenAllDeclared(td, AddStubs(td, members, ms), ms);
  }

  /** A type declaration as the pass sees it; only `members` changes. */
  class Type {
    const typeDescriptor: TypeDescriptor
    const declaration: TypeDeclaration
    const kind: TypeKind
    const isAbstract: bool
    const isNative: bool
    var superTypeDescriptor: TypeDescriptor?
    var members: seq<Member>

    constructor (typeDescriptor: TypeDescriptor, declaration: TypeDeclaration, kind: TypeKind,
                 isAbstract: bool, isNative: bool, superTypeDescriptor: TypeDescriptor?, members: seq<Member>)
      ensures this.typeDescriptor == typeDescriptor && this.declaration == declaration
      ensures this.kind == kind && this.isAbstract == isAbstract && this.isNative == isNative
      ensures this.superTypeDescriptor == superTypeDescriptor && this.members == members
    {
      this.typeDescriptor := typeDescriptor;
      this.declaration := declaration;
      this.kind := kind;
      this.isAbstract := isAbstract;
      this.isNative := isNative;
      this.superTypeDescriptor := superTypeDescriptor;
      this.members := members;
    }

    predicate IsClass() {
      kind == ClassKind
    }

    predicate ContainsMethod(mangledName: string)
      reads this
    {
      DeclaresMethod(members, mangledName)
    }

    method AddMember(member: Member)
      modifies this`members
      ensures members == old(members) + [member]
    {
      members := members + [member];
    }

    /** The members the pass leaves on this type, starting from `members0`. */
    function Applied(members0: seq<Member>, polymorphicMethods: seq<MethodDescriptor>,
                     isMemberOf: (MethodDescriptor, TypeDeclaration) -> bool): seq<Member>
      reads this
    {
      if !IsClass() || !isAbstract || isNative then members0
      else if superTypeDescriptor != typeDescriptor.superTypeDescriptor then members0
      else AddStubs(typeDescriptor, members0, Candidates(polymorphicMethods, declaration, isMemberOf))
    }

    /** `AddAbstractMethodStubs.applyTo(type)`. */
    method ApplyTo(polymorphicMethods: seq<MethodDescriptor>,
                   isMemberOf: (MethodDescriptor, TypeDeclaration) -> bool)
      modifies this`members
      ensures !IsClass() || !isAbstract || isNative ==> members == old(members)
      ensures superTypeDescriptor != typeDescriptor.superTypeDescriptor ==> members == old(members)
      ensures members == Applied(old(members), polymorphicMethods, isMemberOf)
    {
      if !IsClass() || !isAbstract || isNative {
        return;
      }
      if superTypeDescriptor != typeDescriptor.superTypeDescriptor {
        return;
      }
      var candidates := Candidates(polymorphicMethods, declaration, isMemberOf);
      var i := 0;
      while i < |candidates|
        invariant 0 <= i <= |candidates|
        invariant AddStubs(typeDescriptor, members, candidates[i..]) == AddStubs(typeDescriptor, old(members), candidates)
      {
        var m := candidates[i];
        assert candidates[i..][1..] == candidates[i + 1..];
        if !ContainsMethod(m.mangledName) {
          AddMember(Stub(typeDescriptor, m));
        }
        i := i + 1;
      }
    }
  }

  /** A type the pass does not apply to, or whose hierarchy is inconsistent, keeps its members. */
  lemma AppliedSkips(t: Type, members0: seq<Member>, polymorphicMethods: seq<MethodDescriptor>,
                     isMemberOf: (MethodDescriptor, TypeDeclaration) -> bool)
    requires !t.IsClass() || !t.isAbstract || t.isNative || t.superTypeDescriptor != t.typeDescriptor.superTypeDescriptor
    ensures t.Applied(members0, polymorphicMethods, isMemberOf) == members0
  {
  }

  /**
   * What the pass appends: the original members stay in place, and each
   * appended member is an abstract, bodiless method enclosed by the type,
   * without source position, copied from an abstract interface method that is
   * not a member of the declaration, with one parameter per parameter type.
   */
  lemma AppliedAppendsStubs(t: Type, members0: seq<Member>, polymorphicMethods: seq<MethodDescriptor>,
                            isMemberOf: (MethodDescriptor, TypeDeclaration) -> bool, k: nat)
    requires |members0| <= k < |t.Applied(members0, polymorphicMethods, isMemberOf)|
    ensures t.Applied(members0, polymorphicMethods, isMemberOf)[..|members0|] == members0
    ensures exists m ::
              && m in polymorphicMethods
              && m.isAbstract && !isMemberOf(m, t.declaration) && m.enclosingTypeDescriptor.IsInterface()
              && t.Applied(members0, polymorphicMethods, isMemberOf)[k] == Method(
                   MethodDescriptor(m.mangledName, t.typeDescriptor, true, m.parameterTypeDescriptors),
                   CreateParameterVariables(m.parameterTypeDescriptors), false, NoPosition)
  {
    var cs := Candidates(polymorphicMethods, t.declaration, isMemberOf);
    AddStubsKeepsMembers(t.typeDescriptor, members0, cs);
    AddStubsAddsOnlyStubs(t.typeDescriptor, members0, cs, k);
  }

  /** Stub names are new: no clash with an original member, nor with another stub of the run. */
  lemma AppliedNamesUnique(t: Type, members0: seq<Member>, polymorphicMethods: seq<MethodDescriptor>,
                           isMemberOf: (MethodDescriptor, TypeDeclaration) -> bool, j: nat, k: nat)
    requires |members0| <= j < k < |t.Applied(members0, polymorphicMethods, isMemberOf)|
    ensures t.Applied(members0, polymorphicMethods, isMemberOf)[j].Method?
    ensures t.Applied(members0, polymorphicMethods, isMemberOf)[k].Method?
    ensures !DeclaresMethod(members0, t.Applied(members0, polymorphicMethods, isMemberOf)[k].descriptor.mangledName)
    ensures t.Applied(members0, polymorphicMethods, isMemberOf)[j].descriptor.mangledName
         != t.Applied(members0, polymorphicMethods, isMemberOf)[k].descriptor.mangledName
  {
    var cs := Candidates(polymorphicMethods, t.declaration, isMemberOf);
    NoStubForDeclaredName(t.typeDescriptor, members0, cs, k);
    AddedNamesDistinct(t.typeDescriptor, members0, cs, j, k);
  }

  /**
   * On a type the pass applies to, every abstract interface method that is not
   * a member of the declaration ends up declared under its mangled name.
   */
  lemma AppliedCoversCandidates(t: Type, members0: seq<Member>, polymorphicMethods: seq<MethodDescriptor>,
                                isMemberOf: (MethodDescriptor, TypeDeclaration) -> bool, m: MethodDescriptor)
    requires t.IsClass() && t.isAbstract && !t.isNative
    requires t.superTypeDescriptor == t.typeDescriptor.superTypeDescriptor
    requires m in polymorphicMethods && IsCandidate(m, t.declaration, isMemberOf)
    ensures DeclaresMethod(t.Applied(members0, polymorphicMethods, isMemberOf), m.mangledName)
  {
    var cs := Candidates(polymorphicMethods, t.declaration, isMemberOf);
    AddStubsCoversCandidates(t.typeDescriptor, members0, cs);
  }

  /** Running the pass a second time adds nothing. */
  lemma AppliedIdempotent(t: Type, members0: seq<Member>, polymorphicMethods: seq<MethodDescriptor>,
                          isMemberOf: (MethodDescriptor, TypeDeclaration) -> bool)
    ensures t.Applied(t.Applied(members0, polymorphicMethods, isMemberOf), polymorphicMethods, isMemberOf)
         == t.Applied(members0, polymorphicMethods, isMemberOf)
  {
    var cs := Candidates(polymorphicMethods, t.declaration, isMemberOf);
    AddStubsIdempotent(t.typeDescriptor, members0, cs);
  }
}
