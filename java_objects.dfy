/**
 * The `java.util.Objects`, `java.util.Arrays` and `java.util.List` equality and
 * hash-code rules the value classes rely on, in Java's 32-bit `int` arithmetic.
 * The element type `Animal` is a reference type whose own `equals` and
 * `hashCode` are not part of this model: they are given as `AnimalOps`.
 */
module JavaObjects {

  import opened Wrappers

  newtype int32 = x: int | -0x8000_0000 <= x < 0x8000_0000

  const Modulus: int := 0x1_0000_0000

  /** Java's `int` wrap-around: the unique `int` congruent to `x` modulo 2^32. */
  function Wrap(x: int): (r: int32)
    ensures (r as int - x) % Modulus == 0
  {
    var m := x % Modulus;
    if m < 0x8000_0000 then m as int32 else (m - Modulus) as int32
  }

  /** Numbers congruent modulo 2^32 wrap to the same `int`. */
  lemma WrapCongruent(x: int, y: int)
    requires (x - y) % Modulus == 0
    ensures Wrap(x) == Wrap(y)
  {
    var k := (x - y) / Modulus;
    assert x == y + k * Modulus;
    assert x % Modulus == y % Modulus by {
      ModuloShift(y, k);
    }
  }

  lemma ModuloShift(y: int, k: int)
    ensures (y + k * Modulus) % Modulus == y % Modulus
  {
  }

  /** Values already in range are unchanged. */
  lemma WrapInRange(x: int32)
    ensures Wrap(x as int) == x
  {
  }

  /** `31 * h + e` in `int` arithmetic. */
  function Step31(h: int32, e: int32): int32 {
    Wrap(31 * (h as int) + (e as int))
  }

  /**
   * Wrapping after every step of `31 * h + e` gives the same `int` as
   * wrapping the exact result once.
   */
  lemma Step31Wraps(x: int, e: int32)
    ensures Step31(Wrap(x), e) == Wrap(31 * x + (e as int))
  {
    var w := Wrap(x) as int;
    var k := (w - x) / Modulus;
    assert w == x + k * Modulus;
    assert 31 * w + (e as int) == 31 * x + (e as int) + (31 * k) * Modulus;
    WrapCongruent(31 * w + (e as int), 31 * x + (e as int));
  }

  /**
   * The hash-code fold shared by `Arrays.hashCode(Object[])`, `List.hashCode()`
   * and `Objects.hash(Object...)`: start at 1, then `31 * result + h` for
   * each element hash `h` in order.
   */
  function HashCodeOf(hs: seq<int32>): int32 {
    if hs == [] then 1 else Step31(HashCodeOf(hs[..|hs| - 1]), hs[|hs| - 1])
  }

  /** The same fold in exact integer arithmetic. */
  function ExactHashCodeOf(hs: seq<int32>): int {
    if hs == [] then 1 else 31 * ExactHashCodeOf(hs[..|hs| - 1]) + (hs[|hs| - 1] as int)
  }

  /** The fold in `int` arithmetic is the exact polynomial hash, wrapped once. */
  lemma {:induction false} HashCodeOfWraps(hs: seq<int32>)
    ensures HashCodeOf(hs) == Wrap(ExactHashCodeOf(hs))
    decreases |hs|
  {
    if hs == [] {
      WrapInRange(1);
    } else {
      var init := hs[..|hs| - 1];
      HashCodeOfWraps(init);
      Step31Wraps(ExactHashCodeOf(init), hs[|hs| - 1]);
    }
  }

  /**
   * A reference to an `Animal`, by identity. Its fields are not part of this
   * model, so the reference is all that `equals` and `hashCode` can see here.
   */
  datatype Animal = Animal(identity: nat)

  /** `Animal.equals` and `Animal.hashCode`, taken as given. */
  datatype AnimalOps = AnimalOps(equals: (Animal, Animal) -> bool, hashCode: Animal -> int32)

  /** `Animal.equals` and `Animal.hashCode` honour the `Object` contract. */
  ghost predicate Consistent(ops: AnimalOps) {
    forall a: Animal, b: Animal :: ops.equals(a, b) ==> ops.hashCode(a) == ops.hashCode(b)
  }

  /** `Objects.equals(a, b)`: identical references, or a non-null `a` that equals `b`. */
  function ObjectsEquals(ops: AnimalOps, a: Option<Animal>, b: Option<Animal>): (r: bool)
    ensures a == b ==> r
    ensures a.None? != b.None? ==> !r
    ensures a.Some? && b.Some? && a != b ==> (r <==> ops.equals(a.value, b.value))
  {
    a == b || (a.Some? && b.Some? && ops.equals(a.value, b.value))
  }

  /** An element's contribution to a hash code: 0 for null. */
  function ElementHash(ops: AnimalOps, e: Option<Animal>): int32 {
    if e.None? then 0 else ops.hashCode(e.value)
  }

  /** `Objects.equals` elements have equal hashes when `Animal` is consistent. */
  lemma ObjectsEqualsHash(ops: AnimalOps, a: Option<Animal>, b: Option<Animal>)
    requires Consistent(ops) && ObjectsEquals(ops, a, b)
    ensures ElementHash(ops, a) == ElementHash(ops, b)
  {
    if a != b {
      assert ops.equals(a.value, b.value);
    }
  }

  function ElementHashes(ops: AnimalOps, s: seq<Option<Animal>>): (hs: seq<int32>)
    ensures |hs| == |s| && forall i :: 0 <= i < |s| ==> hs[i] == ElementHash(ops, s[i])
  {
    seq(|s|, i requires 0 <= i < |s| => ElementHash(ops, s[i]))
  }

  /** Pairwise `Objects.equals`, the element test of `Arrays.equals` and `List.equals`. */
  predicate PairwiseEquals(ops: AnimalOps, s: seq<Option<Animal>>, t: seq<Option<Animal>>) {
    |s| == |t| && forall i :: 0 <= i < |s| ==> ObjectsEquals(ops, s[i], t[i])
  }

  /** Pairwise equal sequences have equal fold hashes. */
  lemma PairwiseEqualsHash(ops: AnimalOps, s: seq<Option<Animal>>, t: seq<Option<Animal>>)
    requires Consistent(ops) && PairwiseEquals(ops, s, t)
    ensures HashCodeOf(ElementHashes(ops, s)) == HashCodeOf(ElementHashes(ops, t))
  {
    forall i | 0 <= i < |s|
      ensures ElementHashes(ops, s)[i] == ElementHashes(ops, t)[i]
    {
      ObjectsEqualsHash(ops, s[i], t[i]);
    }
    assert ElementHashes(ops, s) == ElementHashes(ops, t);
  }

  /** `Arrays.equals(Object[], Object[])`. */
  predicate ArraysEquals(ops: AnimalOps, a: array?<Option<Animal>>, b: array?<Option<Animal>>)
    reads a, b
  {
    a == b || (a != null && b != null && PairwiseEquals(ops, a[..], b[..]))
  }

  /** `Arrays.hashCode(Object[])`: 0 for null, the element fold otherwise. */
  function ArraysHashCode(ops: AnimalOps, a: array?<Option<Animal>>): int32
    reads a
  {
    if a == null then 0 else HashCodeOf(ElementHashes(ops, a[..]))
  }

  /** `Arrays.equals` arrays have equal `Arrays.hashCode`s. */
  lemma ArraysEqualsHash(ops: AnimalOps, a: array?<Option<Animal>>, b: array?<Option<Animal>>)
    requires Consistent(ops) && ArraysEquals(ops, a, b)
    ensures ArraysHashCode(ops, a) == ArraysHashCode(ops, b)
  {
    if a != b {
      PairwiseEqualsHash(ops, a[..], b[..]);
    }
  }

  /**
   * `Objects.equals` on two `List<Animal>` values: both null, or both present
   * with the same size and pairwise equal elements (`List.equals`).
   */
  predicate ListObjectsEquals(ops: AnimalOps, s: Option<seq<Option<Animal>>>, t: Option<seq<Option<Animal>>>) {
    match (s, t)
    case (None, None) => true
    case (Some(x), Some(y)) => PairwiseEquals(ops, x, y)
    case _ => false
  }

  /** `List.hashCode()`, or 0 for a null list as `Objects.hash` treats it. */
  function ListHashCode(ops: AnimalOps, s: Option<seq<Option<Animal>>>): int32 {
    match s
    case None => 0
    case Some(x) => HashCodeOf(ElementHashes(ops, x))
  }

  /** `Objects.equals` lists have equal hash codes. */
  lemma ListObjectsEqualsHash(ops: AnimalOps, s: Option<seq<Option<Animal>>>, t: Option<seq<Option<Animal>>>)
    requires Consistent(ops) && ListObjectsEquals(ops, s, t)
    ensures ListHashCode(ops, s) == ListHashCode(ops, t)
  {
    if s.Some? {
      PairwiseEqualsHash(ops, s.value, t.value);
    }
  }
}
