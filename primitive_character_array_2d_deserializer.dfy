/**
 * `PrimitiveCharacterArray2dYAMLDeserializer`: turns the list of lists read
 * from a YAML sequence into a rectangular `char[][]` whose width is that of
 * the first inner list. Reading the YAML sequence into the list of lists
 * (`deserializeIntoList`) is not part of this model: the list is the input.
 */
module PrimitiveCharacterArray2dYamlDeserializer {

  import opened Wrappers

  /** A `List<List<Character>>`; a `None` entry is a null `Character`. */
  type CharacterLists = seq<seq<Option<char>>>

  /** The outcome: the array, or the out-of-bounds exception a too long inner list causes. */
  datatype Outcome = Array(chars: array2<char>) | IndexOutOfBounds

  /** `char`'s default value, which every unwritten cell keeps. */
  const Nul: char := '\0'

  /** The width of the result: the size of the first inner list. */
  function Width(list: CharacterLists): nat {
    if list == [] then 0 else |list[0]|
  }

  /**
   * The loop writes a non-null value at a column the array does not have:
   * some inner list holds a non-null entry at or past `width`.
   */
  predicate OutOfBounds(list: CharacterLists, width: nat) {
    exists i, j :: 0 <= i < |list| && width <= j < |list[i]| && list[i][j].Some?
  }

  /** What cell `(i, j)` holds: the entry when present and non-null, `'\0'` otherwise. */
  function Cell(list: CharacterLists, i: nat, j: nat): char
    requires i < |list|
  {
    if j < |list[i]| && list[i][j].Some? then list[i][j].value else Nul
  }

  /** `deserialize(yaml, key, ctx)`, from the list `deserializeIntoList` produced. */
  method Deserialize(list: CharacterLists) returns (r: Outcome)
    ensures list == [] ==> r.Array? && r.chars.Length0 == 0 && r.chars.Length1 == 0
    ensures list != [] && list[0] == [] ==> r.Array? && r.chars.Length0 == |list| && r.chars.Length1 == 0
    ensures list != [] && list[0] != [] ==> (r.IndexOutOfBounds? <==> OutOfBounds(list, Width(list)))
    ensures r.Array? ==> r.chars.Length0 == |list| && r.chars.Length1 == Width(list)
    ensures r.Array? && list != [] && list[0] != [] ==>
              forall i, j :: 0 <= i < |list| && 0 <= j < Width(list) ==> r.chars[i, j] == Cell(list, i, j)
  {
    if list == [] {
      var empty := new char[0, 0];
      return Array(empty);
    }
    var firstList := list[0];
    if firstList == [] {
      var rows := new char[|list|, 0];
      return Array(rows);
    }
    var width := |firstList|;
    var a := new char[|list|, width]((_, _) => Nul);
    var i := 0;
    while i < |list|
      invariant 0 <= i <= |list|
      invariant forall i', j' :: 0 <= i' < i && 0 <= j' < width ==> a[i', j'] == Cell(list, i', j')
      invariant forall i', j' :: i <= i' < |list| && 0 <= j' < width ==> a[i', j'] == Nul
      invariant forall i', j' :: 0 <= i' < i && width <= j' < |list[i']| ==> list[i'][j'].None?
    {
      var innerList := list[i];
      var j := 0;
      while j < |innerList|
        invariant 0 <= j <= |innerList|
        invariant forall i', j' :: 0 <= i' < i && 0 <= j' < width ==> a[i', j'] == Cell(list, i', j')
        invariant forall i', j' :: i < i' < |list| && 0 <= j' < width ==> a[i', j'] == Nul
        invariant forall j' :: 0 <= j' < j && j' < width ==> a[i, j'] == Cell(list, i, j')
        invariant forall j' :: j <= j' < width ==> a[i, j'] == Nul
        invariant forall j' :: width <= j' < j ==> innerList[j'].None?
      {
        if innerList[j].Some? {
          if j >= width {
            return IndexOutOfBounds;
          }
          a[i, j] := innerList[j].value;
        }
        j := j + 1;
      }
      i := i + 1;
    }
    return Array(a);
  }
}
