/**
 * `ValueHolderYamlTypeSerializer`: a `ValueHolder` wraps a non-empty YAML
 * mapping; it is read back from a mapping node and written as that node.
 */
module ValueHolderYamlSerializer {

  import opened Wrappers
  import opened YamlNodes

  /** `ValueHolder`: the wrapped mapping's entries. */
  datatype ValueHolder = ValueHolder(holder: seq<(string, YamlNode)>)

  /** The node a holder is written as (`getHolder()`). */
  function HolderNode(value: ValueHolder): YamlNode {
    MappingNode(value.holder)
  }

  /** What a `serialize` call does: complete, or throw on a null value. */
  datatype Status = Completed | NullDereference

  /**
   * `deserialize(YamlNode node, ctx)`: a holder exactly for a non-empty
   * mapping node, wrapping that mapping; null for anything else.
   */
  function DeserializeNode(node: Option<YamlNode>): (r: Option<ValueHolder>)
    ensures r.Some? <==> node.Some? && node.value.MappingNode? && node.value.entries != []
    ensures r.Some? ==> HolderNode(r.value) == node.value
  {
    if node.Some? && node.value.MappingNode? && node.value.entries != [] then
      Some(ValueHolder(node.value.entries))
    else
      None
  }

  /** `deserialize(YamlMapping yaml, String key, ctx)`: null for a missing key. */
  function DeserializeKey(yaml: seq<(string, YamlNode)>, key: string): (r: Option<ValueHolder>)
    ensures (forall k :: 0 <= k < |yaml| ==> yaml[k].0 != key) ==> r.None?
    ensures GetNode(yaml, key).Some? ==> r == DeserializeNode(GetNode(yaml, key))
    ensures r.Some? ==> exists k :: 0 <= k < |yaml| && yaml[k] == (key, HolderNode(r.value))
  {
    var value := GetNode(yaml, key);
    if value.None? then None else DeserializeNode(value)
  }

  /** `serialize(YamlMapping writer, String propertyName, ValueHolder value, ctx)`. */
  method SerializeIntoMapping(writer: YamlMapping, propertyName: string, value: Option<ValueHolder>)
    modifies writer
    ensures value.None? ==> writer.entries == old(writer.entries)
    ensures value.Some? ==> writer.entries == old(writer.entries) + [(propertyName, Node(HolderNode(value.value)))]
    ensures value.Some? ==> writer.Contents() == old(writer.Contents()) + [(propertyName, HolderNode(value.value))]
  {
    if value.None? {
      return;
    }
    writer.AddNode(propertyName, HolderNode(value.value));
    ghost var before := old(writer.entries);
    assert forall w :: w in WritersOf(before) ==> w.items == old(w.items);
    assert Resolved(before) == old(writer.Contents());
    ResolvedAppend(before, propertyName, Node(HolderNode(value.value)));
  }

  /** `serialize(YamlSequence writer, ValueHolder value, ctx)`: `value.getHolder()` throws on null. */
  method SerializeIntoSequence(writer: YamlSequence, value: Option<ValueHolder>) returns (status: Status)
    modifies writer
    ensures value.None? ==> status == NullDereference && writer.items == old(writer.items)
    ensures value.Some? ==> status == Completed && writer.items == old(writer.items) + [HolderNode(value.value)]
  {
    if value.None? {
      return NullDereference;
    }
    writer.AddNode(HolderNode(value.value));
    status := Completed;
  }

  /**
   * Written under a fresh key, a holder reads back as itself, except that an
   * empty mapping reads back as null.
   */
  lemma SerializeThenDeserialize(yaml: seq<(string, YamlNode)>, key: string, value: ValueHolder)
    requires forall k :: 0 <= k < |yaml| ==> yaml[k].0 != key
    ensures DeserializeKey(yaml + [(key, HolderNode(value))], key)
         == (if value.holder == [] then None else Some(value))
  {
    GetNodeAppended(yaml, key, HolderNode(value));
  }
}
