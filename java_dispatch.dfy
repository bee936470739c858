/**
 * The source-language call semantics that bridge synthesis must preserve, for
 * one-argument methods named `get`: overload selection by the static types of
 * receiver and argument, then dispatch through the receiver's resolved method
 * table, keyed by erased signature, with class members taking precedence over
 * interface members.
 */
module JavaDispatch {

  import opened Wrappers

  /** The erased parameter type of a `get` method. */
  datatype Param = ObjectParam | StringParam

  /** The static type of the argument at a call site. */
  datatype Arg = ObjectArg | StringArg

  /** A declared method: abstract, or returning a constant. */
  datatype Impl = Abstract | Returns(value: string)

  /**
   * A type declaration. Types are numbered so that every type comes after its
   * superclass and its interfaces; `methods` maps an erased signature to what
   * this type declares for it.
   */
  datatype TypeDecl = TypeDecl(
    name: string,
    isInterface: bool,
    superclass: Option<nat>,
    interfaces: seq<nat>,
    methods: map<Param, Impl>)

  type Hierarchy = seq<TypeDecl>

  /** Super-types come first; superclasses are classes and interfaces are interfaces. */
  predicate WellFormed(h: Hierarchy) {
    && (forall t :: 0 <= t < |h| && h[t].superclass.Some? ==>
          h[t].superclass.value < t && !h[h[t].superclass.value].isInterface && !h[t].isInterface)
    && (forall t, k :: 0 <= t < |h| && 0 <= k < |h[t].interfaces| ==>
          h[t].interfaces[k] < t && h[h[t].interfaces[k]].isInterface)
  }

  /** `s` is `t` or one of its super-types. */
  predicate IsSupertype(h: Hierarchy, t: nat, s: nat)
    requires WellFormed(h) && t < |h|
    decreases t, 1
  {
    || s == t
    || (h[t].superclass.Some? && IsSupertype(h, h[t].superclass.value, s))
    || SomeIsSupertype(h, h[t].interfaces, t, s)
  }

  /** `s` is one of the interfaces `ifaces` (all below `bound`) or one of their super-types. */
  predicate SomeIsSupertype(h: Hierarchy, ifaces: seq<nat>, bound: nat, s: nat)
    requires WellFormed(h) && bound < |h|
    requires forall k :: 0 <= k < |ifaces| ==> ifaces[k] < bound
    decreases bound, 0, |ifaces|
  {
    ifaces != [] && (IsSupertype(h, ifaces[0], s) || SomeIsSupertype(h, ifaces[1..], bound, s))
  }

  /** What the nearest class of `t`'s superclass chain (`t` first) declares for `p`. */
  function ClassDeclaration(h: Hierarchy, t: nat, p: Param): Option<Impl>
    requires WellFormed(h) && t < |h|
    decreases t
  {
    if p in h[t].methods then Some(h[t].methods[p])
    else if h[t].superclass.Some? then ClassDeclaration(h, h[t].superclass.value, p)
    else None
  }

  /** `s` is a proper super-interface of `t` that declares `p`. */
  predicate InterfaceDeclares(h: Hierarchy, t: nat, p: Param, s: nat)
    requires WellFormed(h) && t < |h|
  {
    s < |h| && s != t && h[s].isInterface && p in h[s].methods && IsSupertype(h, t, s)
  }

  /** The types below `n` that `InterfaceDeclares`, in increasing order. */
  function InterfaceDeclarers(h: Hierarchy, t: nat, p: Param, n: nat): (r: seq<nat>)
    requires WellFormed(h) && t < |h| && n <= |h|
    ensures forall s: nat :: s in r <==> s < n && InterfaceDeclares(h, t, p, s)
    ensures Increasing(r)
  {
    if n == 0 then []
    else
      var rest := InterfaceDeclarers(h, t, p, n - 1);
      if InterfaceDeclares(h, t, p, n - 1) then
        assert forall k :: 0 <= k < |rest| ==> rest[k] < n - 1 by {
          forall k | 0 <= k < |rest| ensures rest[k] < n - 1 {
            assert rest[k] in rest;
          }
        }
        rest + [n - 1]
      else rest
  }

  predicate Increasing(r: seq<nat>) {
    forall i, j :: 0 <= i < j < |r| ==> r[i] < r[j]
  }

  /** Keeping the head of an increasing sequence in front of a filtered tail keeps it increasing. */
  lemma FilterIncreasing(ds: seq<nat>, rest: seq<nat>)
    requires ds != [] && Increasing(ds)
    requires Increasing(ds[1..]) ==> Increasing(rest)
    requires forall s :: s in rest ==> s in ds[1..]
    ensures Increasing([ds[0]] + rest)
  {
    assert Increasing(ds[1..]);
    forall k | 0 <= k < |rest|
      ensures ds[0] < rest[k]
    {
      assert rest[k] in rest;
      var j :| 0 <= j < |ds| - 1 && ds[1..][j] == rest[k];
      assert ds[j + 1] == rest[k];
    }
  }

  /** Some type of `ds` other than `s` is `s` or a subtype of it: it overrides `s`'s declaration. */
  predicate Overridden(h: Hierarchy, ds: seq<nat>, s: nat)
    requires WellFormed(h) && forall k :: 0 <= k < |ds| ==> ds[k] < |h|
  {
    ds != [] && ((ds[0] != s && IsSupertype(h, ds[0], s)) || Overridden(h, ds[1..], s))
  }

  /** The declarers of `ds` that no other declarer of `all` overrides. */
  function MaximallySpecific(h: Hierarchy, ds: seq<nat>, all: seq<nat>): (r: seq<nat>)
    requires WellFormed(h)
    requires forall k :: 0 <= k < |ds| ==> ds[k] < |h|
    requires forall k :: 0 <= k < |all| ==> all[k] < |h|
    ensures forall s :: s in r <==> s in ds && !Overridden(h, all, s)
    ensures Increasing(ds) ==> Increasing(r)
  {
    if ds == [] then []
    else
      var rest := MaximallySpecific(h, ds[1..], all);
      assert forall s :: s in ds[1..] ==> s in ds;
      if Overridden(h, all, ds[0]) then rest
      else
        assert Increasing(ds) ==> Increasing([ds[0]] + rest) by {
          if Increasing(ds) {
            FilterIncreasing(ds, rest);
          }
        }
        [ds[0]] + rest
  }

  /** The declarations of `ms` that are not abstract. */
  function NonAbstract(h: Hierarchy, ms: seq<nat>, p: Param): (r: seq<nat>)
    requires forall k :: 0 <= k < |ms| ==> ms[k] < |h| && p in h[ms[k]].methods
    ensures forall s :: s in r <==> s in ms && h[s].methods[p].Returns?
    ensures Increasing(ms) ==> Increasing(r)
  {
    if ms == [] then []
    else
      var rest := NonAbstract(h, ms[1..], p);
      assert forall s :: s in ms[1..] ==> s in ms;
      if h[ms[0]].methods[p].Returns? then
        assert Increasing(ms) ==> Increasing([ms[0]] + rest) by {
          if Increasing(ms) {
            FilterIncreasing(ms, rest);
          }
        }
        [ms[0]] + rest
      else rest
  }

  /**
   * Method selection for signature `p` on a receiver of type `t`, as section
   * 5.4.6 of the Java Virtual Machine Specification describes it: the
   * declaration of the nearest class of the superclass chain; otherwise the
   * one maximally specific super-interface method that is not abstract;
   * otherwise, when some super-interface declares `p`, none that can run
   * (`Abstract`: the call fails).
   */
  function Entry(h: Hierarchy, t: nat, p: Param): Option<Impl>
    requires WellFormed(h) && t < |h|
  {
    var c := ClassDeclaration(h, t, p);
    if c.Some? then c
    else
      var ds := InterfaceDeclarers(h, t, p, |h|);
      assert forall k :: 0 <= k < |ds| ==> ds[k] in ds;
      var ms := MaximallySpecific(h, ds, ds);
      assert forall k :: 0 <= k < |ms| ==> ms[k] in ms;
      var selectable := NonAbstract(h, ms, p);
      assert forall k :: 0 <= k < |selectable| ==> selectable[k] in selectable;
      if ds == [] then None
      else if |selectable| == 1 then Some(h[selectable[0]].methods[p])
      else Some(Abstract)
  }

  const Params: set<Param> := {ObjectParam, StringParam}

  /** The resolved method table of `t`: the selected entry of every signature that has one. */
  function Table(h: Hierarchy, t: nat): map<Param, Impl>
    requires WellFormed(h) && t < |h|
  {
    map p | p in Params && Entry(h, t, p).Some? :: Entry(h, t, p).value
  }

  /** A method taking `p` accepts an argument of static type `a`. */
  predicate Applicable(p: Param, a: Arg) {
    p == ObjectParam || a == StringArg
  }

  /**
   * Overload selection among the signatures visible through the static type:
   * the most specific applicable one (a `String` parameter beats `Object`), or
   * none when nothing applies.
   */
  function Select(visible: set<Param>, a: Arg): (r: Option<Param>)
    ensures r.Some? ==> r.value in visible && Applicable(r.value, a)
    ensures r.Some? && r.value == ObjectParam ==> !(StringParam in visible && Applicable(StringParam, a))
    ensures r.None? <==> forall p :: p in visible ==> !Applicable(p, a)
  {
    if a == StringArg && StringParam in visible then Some(StringParam)
    else if ObjectParam in visible then Some(ObjectParam)
    else None
  }

  /**
   * `((S) receiver).get(arg)`: the signature is chosen with the static type
   * `staticType`, the implementation is the receiver's table entry for it.
   */
  function Invoke(h: Hierarchy, receiver: nat, staticType: nat, a: Arg): Option<string>
    requires WellFormed(h) && receiver < |h| && staticType < |h|
  {
    var p := Select(Table(h, staticType).Keys, a);
    if p.Some? && p.value in Table(h, receiver) && Table(h, receiver)[p.value].Returns? then
      Some(Table(h, receiver)[p.value].value)
    else
      None
  }

  /** A table is determined by the selected entry of each signature. */
  lemma TableOf(h: Hierarchy, t: nat, m: map<Param, Impl>)
    requires WellFormed(h) && t < |h|
    requires forall p :: p in Params ==> Entry(h, t, p) == (if p in m then Some(m[p]) else None)
    ensures Table(h, t) == m
  {
    forall p: Param
      ensures p in Params
    {
      if p.ObjectParam? {
        assert p == ObjectParam;
      } else {
        assert p == StringParam;
      }
    }
  }

  /** `SomeIsSupertype` holds exactly when one of the listed interfaces has `s` as a super-type. */
  lemma {:induction false} SomeIsSupertypeAt(h: Hierarchy, ifaces: seq<nat>, bound: nat, s: nat)
    requires WellFormed(h) && bound < |h|
    requires forall k :: 0 <= k < |ifaces| ==> ifaces[k] < bound
    ensures SomeIsSupertype(h, ifaces, bound, s) <==> exists k :: 0 <= k < |ifaces| && IsSupertype(h, ifaces[k], s)
    decreases |ifaces|
  {
    if ifaces != [] {
      SomeIsSupertypeAt(h, ifaces[1..], bound, s);
      if exists k :: 0 <= k < |ifaces| && IsSupertype(h, ifaces[k], s) {
        var k :| 0 <= k < |ifaces| && IsSupertype(h, ifaces[k], s);
        if k > 0 {
          assert ifaces[1..][k - 1] == ifaces[k];
        }
      }
      if SomeIsSupertype(h, ifaces[1..], bound, s) {
        var k :| 0 <= k < |ifaces[1..]| && IsSupertype(h, ifaces[1..][k], s);
        assert ifaces[k + 1] == ifaces[1..][k];
      }
    }
  }

  /** `Overridden` holds exactly when another type of `ds` is `s` or a subtype of it. */
  lemma {:induction false} OverriddenAt(h: Hierarchy, ds: seq<nat>, s: nat)
    requires WellFormed(h) && forall k :: 0 <= k < |ds| ==> ds[k] < |h|
    ensures Overridden(h, ds, s) <==> exists k :: 0 <= k < |ds| && ds[k] != s && IsSupertype(h, ds[k], s)
    decreases |ds|
  {
    if ds != [] {
      OverriddenAt(h, ds[1..], s);
      if exists k :: 0 <= k < |ds| && ds[k] != s && IsSupertype(h, ds[k], s) {
        var k :| 0 <= k < |ds| && ds[k] != s && IsSupertype(h, ds[k], s);
        if k > 0 {
          assert ds[1..][k - 1] == ds[k];
        }
      }
      if Overridden(h, ds[1..], s) {
        var k :| 0 <= k < |ds[1..]| && ds[1..][k] != s && IsSupertype(h, ds[1..][k], s);
        assert ds[k + 1] == ds[1..][k];
      }
    }
  }

  /** A super-type comes no later than its subtype. */
  lemma {:induction false} SupertypeBelow(h: Hierarchy, t: nat, s: nat)
    requires WellFormed(h) && t < |h| && IsSupertype(h, t, s)
    ensures s <= t
    decreases t
  {
    if s != t {
      if h[t].superclass.Some? && IsSupertype(h, h[t].superclass.value, s) {
        SupertypeBelow(h, h[t].superclass.value, s);
      } else {
        SomeIsSupertypeAt(h, h[t].interfaces, t, s);
        var k :| 0 <= k < |h[t].interfaces| && IsSupertype(h, h[t].interfaces[k], s);
        SupertypeBelow(h, h[t].interfaces[k], s);
      }
    }
  }

  /** The super-type relation is transitive. */
  lemma {:induction false} SupertypeTransitive(h: Hierarchy, t: nat, u: nat, s: nat)
    requires WellFormed(h) && t < |h| && IsSupertype(h, t, u)
    requires u < |h| && IsSupertype(h, u, s)
    ensures IsSupertype(h, t, s)
    decreases t
  {
    if u != t {
      if h[t].superclass.Some? && IsSupertype(h, h[t].superclass.value, u) {
        SupertypeTransitive(h, h[t].superclass.value, u, s);
      } else {
        SomeIsSupertypeAt(h, h[t].interfaces, t, u);
        var k :| 0 <= k < |h[t].interfaces| && IsSupertype(h, h[t].interfaces[k], u);
        SupertypeTransitive(h, h[t].interfaces[k], u, s);
        SomeIsSupertypeAt(h, h[t].interfaces, t, s);
      }
    }
  }

  /** Every super-type of an interface is an interface. */
  lemma {:induction false} InterfaceSupertypes(h: Hierarchy, t: nat, s: nat)
    requires WellFormed(h) && t < |h| && h[t].isInterface && IsSupertype(h, t, s)
    ensures s < |h| && h[s].isInterface
    decreases t
  {
    SupertypeBelow(h, t, s);
    if s != t {
      SomeIsSupertypeAt(h, h[t].interfaces, t, s);
      var k :| 0 <= k < |h[t].interfaces| && IsSupertype(h, h[t].interfaces[k], s);
      InterfaceSupertypes(h, h[t].interfaces[k], s);
    }
  }

  /** A class among the super-types that declares `p` makes the class chain supply `p`. */
  lemma {:induction false} ClassDeclares(h: Hierarchy, t: nat, p: Param, d: nat)
    requires WellFormed(h) && t < |h| && IsSupertype(h, t, d)
    requires d < |h| && !h[d].isInterface && p in h[d].methods
    ensures ClassDeclaration(h, t, p).Some?
    decreases t
  {
    if d != t && p !in h[t].methods {
      if h[t].superclass.Some? && IsSupertype(h, h[t].superclass.value, d) {
        ClassDeclares(h, h[t].superclass.value, p, d);
      } else {
        SomeIsSupertypeAt(h, h[t].interfaces, t, d);
        var k :| 0 <= k < |h[t].interfaces| && IsSupertype(h, h[t].interfaces[k], d);
        InterfaceSupertypes(h, h[t].interfaces[k], d);
      }
    }
  }

  /** What the class chain supplies was declared, with that value, by a super-type. */
  lemma {:induction false} ClassDeclarationDeclared(h: Hierarchy, t: nat, p: Param)
    requires WellFormed(h) && t < |h| && ClassDeclaration(h, t, p).Some?
    ensures exists s: nat :: s < |h| && IsSupertype(h, t, s) && p in h[s].methods
                             && h[s].methods[p] == ClassDeclaration(h, t, p).value
    decreases t
  {
    if p !in h[t].methods {
      var c := h[t].superclass.value;
      ClassDeclarationDeclared(h, c, p);
      var s: nat :| s < |h| && IsSupertype(h, c, s) && p in h[s].methods
                    && h[s].methods[p] == ClassDeclaration(h, c, p).value;
      assert IsSupertype(h, t, s);
    } else {
      assert IsSupertype(h, t, t);
    }
  }

  /** A type's own declaration always wins in its table. */
  lemma OwnDeclarationWins(h: Hierarchy, t: nat, p: Param)
    requires WellFormed(h) && t < |h| && p in h[t].methods
    ensures p in Table(h, t) && Table(h, t)[p] == h[t].methods[p]
  {
    assert p in Params;
  }

  /**
   * Without an own declaration, a declaration in the superclass chain is
   * inherited with its table entry, over every interface's.
   */
  lemma SuperclassWinsOverInterfaces(h: Hierarchy, t: nat, p: Param)
    requires WellFormed(h) && t < |h| && p !in h[t].methods
    requires h[t].superclass.Some? && ClassDeclaration(h, h[t].superclass.value, p).Some?
    ensures p in Table(h, h[t].superclass.value)
    ensures p in Table(h, t) && Table(h, t)[p] == Table(h, h[t].superclass.value)[p]
  {
    assert p in Params;
  }

  /**
   * Without a class declaration, an interface default is selected when every
   * other interface declaring the signature is a super-interface of its own,
   * that is, when the default overrides them all; the order in which the
   * interfaces are listed does not matter.
   */
  lemma MostSpecificDefaultWins(h: Hierarchy, t: nat, p: Param, i: nat)
    requires WellFormed(h) && t < |h| && ClassDeclaration(h, t, p).None?
    requires InterfaceDeclares(h, t, p, i) && h[i].methods[p].Returns?
    requires forall d: nat :: InterfaceDeclares(h, t, p, d) && d != i ==> IsSupertype(h, i, d)
    ensures p in Table(h, t) && Table(h, t)[p] == h[i].methods[p]
  {
    var ds := InterfaceDeclarers(h, t, p, |h|);
    assert forall k :: 0 <= k < |ds| ==> ds[k] in ds;
    var ms := MaximallySpecific(h, ds, ds);
    assert forall k :: 0 <= k < |ms| ==> ms[k] in ms;
    var selectable := NonAbstract(h, ms, p);
    OverriddenAt(h, ds, i);
    if Overridden(h, ds, i) {
      var k :| 0 <= k < |ds| && ds[k] != i && IsSupertype(h, ds[k], i);
      SupertypeBelow(h, ds[k], i);
      SupertypeBelow(h, i, ds[k]);
    }
    forall d | d in ds && d != i
      ensures Overridden(h, ds, d)
    {
      OverriddenAt(h, ds, d);
      var k :| 0 <= k < |ds| && ds[k] == i;
    }
    assert forall d :: d in selectable <==> d == i;
    assert selectable[0] in selectable && selectable[|selectable| - 1] in selectable;
    assert |selectable| == 1;
    assert p in Params;
  }

  /** A table holds `p` exactly when the type or one of its super-types declares `p`. */
  lemma TableKeys(h: Hierarchy, t: nat, p: Param)
    requires WellFormed(h) && t < |h|
    ensures p in Table(h, t) <==> exists s: nat :: s < |h| && IsSupertype(h, t, s) && p in h[s].methods
  {
    assert p in Params;
    var ds := InterfaceDeclarers(h, t, p, |h|);
    if ClassDeclaration(h, t, p).Some? {
      ClassDeclarationDeclared(h, t, p);
    } else if ds != [] {
      assert ds[0] in ds;
    }
    if exists s: nat :: s < |h| && IsSupertype(h, t, s) && p in h[s].methods {
      var s: nat :| s < |h| && IsSupertype(h, t, s) && p in h[s].methods;
      if !h[s].isInterface {
        ClassDeclares(h, t, p, s);
      } else if s != t {
        assert s in ds;
      }
    }
  }

  /** Every signature visible through a super-type is in the table of its subtypes. */
  lemma InheritedSignatures(h: Hierarchy, t: nat, s: nat)
    requires WellFormed(h) && t < |h| && IsSupertype(h, t, s)
    ensures s < |h| && Table(h, s).Keys <= Table(h, t).Keys
  {
    SupertypeBelow(h, t, s);
    forall p | p in Table(h, s)
      ensures p in Table(h, t)
    {
      TableKeys(h, s, p);
      var d: nat :| d < |h| && IsSupertype(h, s, d) && p in h[d].methods;
      SupertypeTransitive(h, t, s, d);
      TableKeys(h, t, p);
    }
  }

  /**
   * No accidental override: every signature in a table was declared, for
   * exactly that erased signature, by the type or a super-type, and an entry
   * that runs is that declaration.
   */
  lemma TableEntryDeclared(h: Hierarchy, t: nat, p: Param)
    requires WellFormed(h) && t < |h| && p in Table(h, t)
    ensures exists s: nat :: s < |h| && IsSupertype(h, t, s) && p in h[s].methods
                             && (Table(h, t)[p].Returns? ==> h[s].methods[p] == Table(h, t)[p])
  {
    if ClassDeclaration(h, t, p).Some? {
      ClassDeclarationDeclared(h, t, p);
    } else {
      var ds := InterfaceDeclarers(h, t, p, |h|);
      assert forall k :: 0 <= k < |ds| ==> ds[k] in ds;
      var ms := MaximallySpecific(h, ds, ds);
      assert forall k :: 0 <= k < |ms| ==> ms[k] in ms;
      var selectable := NonAbstract(h, ms, p);
      if |selectable| == 1 {
        assert selectable[0] in selectable;
      } else {
        assert ds[0] in ds;
      }
    }
  }

  /**
   * A call through any super-type of the receiver reaches an implementation
   * declared with the signature that overload selection chose.
   */
  lemma InvokeReachesSelectedSignature(h: Hierarchy, receiver: nat, staticType: nat, a: Arg)
    requires WellFormed(h) && receiver < |h| && staticType < |h| && IsSupertype(h, receiver, staticType)
    requires Select(Table(h, staticType).Keys, a).Some?
    ensures var p := Select(Table(h, staticType).Keys, a).value;
            p in Table(h, receiver)
            && (Table(h, receiver)[p].Returns? ==> Invoke(h, receiver, staticType, a) == Some(Table(h, receiver)[p].value))
            && exists s: nat :: s < |h| && IsSupertype(h, receiver, s) && p in h[s].methods
                                && (Table(h, receiver)[p].Returns? ==> h[s].methods[p] == Table(h, receiver)[p])
  {
    var p := Select(Table(h, staticType).Keys, a).value;
    InheritedSignatures(h, receiver, staticType);
    TableEntryDeclared(h, receiver, p);
  }
}
