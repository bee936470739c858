/**
 * The `PetShopArray` and `PetShop` value classes of the YAML mapper tests:
 * settable fields, and `equals`/`hashCode` built from `java.util.Objects`,
 * `java.util.Arrays` and `java.util.List` as modelled in `JavaObjects`.
 */
module PetShops {

  import opened Wrappers
  import opened JavaObjects

  class PetShopArray {
    var animals: array?<Option<Animal>>
    var animal: Option<Animal>

    /** The implicit no-argument constructor: both fields null. */
    constructor ()
      ensures GetAnimals() == null && GetAnimal() == None
    {
      animals := null;
      animal := None;
    }

    function GetAnimals(): array?<Option<Animal>>
      reads this
    {
      animals
    }

    /** Stores the array reference itself, not a copy; `animal` is untouched. */
    method SetAnimals(animals: array?<Option<Animal>>)
      modifies this
      ensures GetAnimals() == animals && GetAnimal() == old(GetAnimal())
    {
      this.animals := animals;
    }

    function GetAnimal(): Option<Animal>
      reads this
    {
      animal
    }

    method SetAnimal(animal: Option<Animal>)
      modifies this
      ensures GetAnimal() == animal && GetAnimals() == old(GetAnimals())
    {
      this.animal := animal;
    }

    /**
     * `equals(Object o)`: true for the same object, false for null or another
     * class, otherwise `Arrays.equals` on `animals` and `Objects.equals` on
     * `animal`.
     */
    predicate Equals(ops: AnimalOps, o: object?)
      reads this, animals, o
      reads if o is PetShopArray then {(o as PetShopArray).animals} else {}
      ensures o == this ==> Equals(ops, o)
      ensures !(o is PetShopArray) ==> !Equals(ops, o)
    {
      if this == o then true
      else if !(o is PetShopArray) then false
      else
        var that := o as PetShopArray;
        ArraysEquals(ops, animals, that.animals) && ObjectsEquals(ops, animal, that.animal)
    }

    /** `hashCode()`: `result = Objects.hash(animal)`, then `31 * result + Arrays.hashCode(animals)`. */
    function HashCode(ops: AnimalOps): int32
      reads this, animals
    {
      Step31(HashCodeOf([ElementHash(ops, animal)]), ArraysHashCode(ops, animals))
    }
  }

  /**
   * `hashCode` is `31 * (31 + hash(animal)) + Arrays.hashCode(animals)`
   * computed exactly and then wrapped to 32 bits once.
   */
  lemma PetShopArrayHashCodeClosedForm(ops: AnimalOps, p: PetShopArray)
    ensures p.HashCode(ops)
         == Wrap(31 * (31 + (ElementHash(ops, p.animal) as int)) + (ArraysHashCode(ops, p.animals) as int))
  {
    var h := ElementHash(ops, p.animal);
    assert HashCodeOf([h]) == Step31(HashCodeOf([]), h) by {
      assert [h][..0] == [];
    }
    Step31Wraps(31 + (h as int), ArraysHashCode(ops, p.animals));
  }

  /** Equal objects have equal hash codes, given that `Animal` keeps that contract. */
  lemma PetShopArrayEqualsHashCode(ops: AnimalOps, p: PetShopArray, q: PetShopArray)
    requires Consistent(ops) && p.Equals(ops, q)
    ensures p.HashCode(ops) == q.HashCode(ops)
  {
    if p != q {
      ArraysEqualsHash(ops, p.animals, q.animals);
      ObjectsEqualsHash(ops, p.animal, q.animal);
    }
  }

  class PetShop {
    var animalList: Option<seq<Option<Animal>>>

    /** The implicit no-argument constructor: the list is null. */
    constructor ()
      ensures GetAnimalList() == None
    {
      animalList := None;
    }

    function GetAnimalList(): Option<seq<Option<Animal>>>
      reads this
    {
      animalList
    }

    method SetAnimalList(animalList: Option<seq<Option<Animal>>>)
      modifies this
      ensures GetAnimalList() == animalList
    {
      this.animalList := animalList;
    }

    /**
     * `equals(Object o)`: true for the same object, false for null or another
     * class, otherwise `Objects.equals` on `animalList`.
     */
    predicate Equals(ops: AnimalOps, o: object?)
      reads this, o
      ensures o == this ==> Equals(ops, o)
      ensures !(o is PetShop) ==> !Equals(ops, o)
    {
      if this == o then true
      else if !(o is PetShop) then false
      else ListObjectsEquals(ops, animalList, (o as PetShop).animalList)
    }

    /** `hashCode()`: `Objects.hash(animalList)`. */
    function HashCode(ops: AnimalOps): int32
      reads this
    {
      HashCodeOf([ListHashCode(ops, animalList)])
    }
  }

  /** `hashCode` is `31 + animalList.hashCode()` (0 for null), wrapped to 32 bits. */
  lemma PetShopHashCodeClosedForm(ops: AnimalOps, p: PetShop)
    ensures p.HashCode(ops) == Wrap(31 + (ListHashCode(ops, p.animalList) as int))
  {
    var h := ListHashCode(ops, p.animalList);
    assert HashCodeOf([h]) == Step31(HashCodeOf([]), h) by {
      assert [h][..0] == [];
    }
  }

  /** Equal objects have equal hash codes, given that `Animal` keeps that contract. */
  lemma PetShopEqualsHashCode(ops: AnimalOps, p: PetShop, q: PetShop)
    requires Consistent(ops) && p.Equals(ops, q)
    ensures p.HashCode(ops) == q.HashCode(ops)
  {
    if p != q {
      ListObjectsEqualsHash(ops, p.animalList, q.animalList);
    }
  }
}
