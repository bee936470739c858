/**
 * `PrimitiveLongArrayYAMLSerializer`: writes a `long[]` under a property of a
 * mapping (nothing, or an empty placeholder, for an empty array; an attached
 * sequence otherwise), or element by element into a sequence.
 */
module PrimitiveLongArrayYamlSerializer {

  import opened Wrappers
  import opened YamlNodes

  /** What a `serialize` call does: complete, or throw on a null array. */
  datatype Status = Completed | NullDereference

  /** `isEmpty(value)`: a null array or one of length 0. */
  function IsEmpty(value: Option<seq<int64>>): (r: bool)
    ensures r <==> forall values :: value == Some(values) ==> values == []
  {
    value.None? || |value.value| == 0
  }

  /** The scalar nodes written for `values`, one per element. */
  function LongScalars(values: seq<int64>): seq<YamlNode>
    decreases |values|
  {
    if values == [] then []
    else LongScalars(values[..|values| - 1]) + [ScalarNode(LongScalar(values[|values| - 1]))]
  }

  /** One scalar per element, in array order. */
  lemma {:induction false} LongScalarsInOrder(values: seq<int64>)
    ensures |LongScalars(values)| == |values|
    ensures forall i :: 0 <= i < |values| ==> LongScalars(values)[i] == ScalarNode(LongScalar(values[i]))
    decreases |values|
  {
    if values != [] {
      var init := values[..|values| - 1];
      LongScalarsInOrder(init);
      forall i | 0 <= i < |values| - 1
        ensures LongScalars(values)[i] == ScalarNode(LongScalar(values[i]))
      {
        assert LongScalars(values)[i] == LongScalars(init)[i];
        assert init[i] == values[i];
      }
    }
  }

  /** `serialize(YamlSequence writer, long[] value, ctx)`. */
  method SerializeIntoSequence(writer: YamlSequence, value: Option<seq<int64>>) returns (status: Status)
    modifies writer
    ensures value.None? ==> status == NullDereference && writer.items == old(writer.items)
    ensures value.Some? ==> status == Completed && writer.items == old(writer.items) + LongScalars(value.value)
  {
    if value.None? {
      return NullDereference;
    }
    var values := value.value;
    for i := 0 to |values|
      invariant writer.items == old(writer.items) + LongScalars(values[..i])
    {
      writer.AddScalarNode(LongScalar(values[i]));
      assert values[..i + 1][..i] == values[..i];
    }
    assert values[..|values|] == values;
    status := Completed;
  }

  /** `serialize(YamlMapping writer, String propertyName, long[] values, ctx)`. */
  method SerializeIntoMapping(writer: YamlMapping, propertyName: string, values: Option<seq<int64>>,
                              writeEmptyYamlArrays: bool)
    modifies writer
    ensures IsEmpty(values) && writeEmptyYamlArrays ==>
              writer.entries == old(writer.entries) + [(propertyName, Node(ScalarNode(EmptyLongArray)))]
    ensures IsEmpty(values) && !writeEmptyYamlArrays ==> writer.entries == old(writer.entries)
    ensures !IsEmpty(values) ==>
              && |writer.entries| == |old(writer.entries)| + 1
              && writer.entries[..|old(writer.entries)|] == old(writer.entries)
              && writer.entries[|old(writer.entries)|].0 == propertyName
              && writer.entries[|old(writer.entries)|].1.Sequence?
              && fresh(writer.entries[|old(writer.entries)|].1.writer)
    ensures !IsEmpty(values) ==>
              writer.Contents() == old(writer.Contents()) + [(propertyName, SequenceNode(LongScalars(values.value)))]
  {
    if IsEmpty(values) {
      if writeEmptyYamlArrays {
        writer.AddScalarNode(propertyName, EmptyLongArray);
      }
      return;
    }
    var yamlSequence := writer.AddSequenceNode(propertyName);
    ghost var before := old(writer.entries);
    assert yamlSequence !in WritersOf(before);
    var _ := SerializeIntoSequence(yamlSequence, values);
    assert yamlSequence.items == LongScalars(values.value);
    ResolvedAppend(before, propertyName, Sequence(yamlSequence));
  }
}
