/**
 * The YAML node tree the mapper reads, and the two writers it fills: a mapping
 * writer whose `addSequenceNode` hands back a sequence writer that stays
 * attached to the mapping, and a sequence writer. The node classes of the
 * mapper API are not part of this model; this is the behaviour the serializers
 * rely on.
 */
module YamlNodes {

  import opened Wrappers

  newtype int64 = x: int | -0x8000_0000_0000_0000 <= x < 0x8000_0000_0000_0000

  /** The scalars the modelled serializers emit. */
  datatype Scalar =
    | LongScalar(n: int64)
    /** `addScalarNode(propertyName, new long[] {})`: the empty-array placeholder. */
    | EmptyLongArray
    | TextScalar(text: string)

  datatype YamlNode =
    | ScalarNode(scalar: Scalar)
    | SequenceNode(items: seq<YamlNode>)
    | MappingNode(entries: seq<(string, YamlNode)>)

  /** `YamlMapping.getNode(key)`: the node of the first entry with that key, or null. */
  function GetNode(entries: seq<(string, YamlNode)>, key: string): (r: Option<YamlNode>)
    ensures r.None? <==> forall k :: 0 <= k < |entries| ==> entries[k].0 != key
    ensures r.Some? ==> exists k :: 0 <= k < |entries| && entries[k] == (key, r.value)
                                    && forall j :: 0 <= j < k ==> entries[j].0 != key
  {
    if entries == [] then None
    else if entries[0].0 == key then Some(entries[0].1)
    else
      var r := GetNode(entries[1..], key);
      assert r.Some? ==> exists k :: 0 <= k < |entries| - 1 && entries[1..][k] == (key, r.value)
                                     && forall j :: 0 <= j < k ==> entries[1..][j].0 != key;
      assert r.Some? ==> exists k :: 1 <= k < |entries| && entries[k] == (key, r.value)
                                     && forall j :: 0 <= j < k ==> entries[j].0 != key by {
        if r.Some? {
          var k :| 0 <= k < |entries| - 1 && entries[1..][k] == (key, r.value)
                   && forall j :: 0 <= j < k ==> entries[1..][j].0 != key;
          assert entries[k + 1] == (key, r.value);
          assert forall j :: 0 <= j < k + 1 ==> entries[j].0 != key by {
            forall j | 0 <= j < k + 1 ensures entries[j].0 != key {
              if j > 0 {
                assert entries[j] == entries[1..][j - 1];
              }
            }
          }
        }
      }
      r
  }

  /** A key absent from `entries` is found in the entry appended for it. */
  lemma GetNodeAppended(entries: seq<(string, YamlNode)>, key: string, node: YamlNode)
    requires GetNode(entries, key).None?
    ensures GetNode(entries + [(key, node)], key) == Some(node)
  {
    var extended := entries + [(key, node)];
    assert forall j :: 0 <= j < |entries| ==> extended[j] == entries[j];
    assert extended[|entries|] == (key, node);
  }

  /** A `YamlSequence` being written: its items so far. */
  class YamlSequence {
    var items: seq<YamlNode>

    constructor ()
      ensures items == []
    {
      items := [];
    }

    /** `addScalarNode(value)`. */
    method AddScalarNode(value: Scalar)
      modifies this
      ensures items == old(items) + [ScalarNode(value)]
    {
      items := items + [ScalarNode(value)];
    }

    /** `addNode(node)`. */
    method AddNode(node: YamlNode)
      modifies this
      ensures items == old(items) + [node]
    {
      items := items + [node];
    }
  }

  /** A mapping entry being written: a finished node, or an attached sequence writer. */
  datatype Child = Node(node: YamlNode) | Sequence(writer: YamlSequence)

  ghost function WritersOf(entries: seq<(string, Child)>): set<YamlSequence> {
    set k | 0 <= k < |entries| && entries[k].1.Sequence? :: entries[k].1.writer
  }

  function Resolve(child: Child): YamlNode
    reads if child.Sequence? then {child.writer} else {}
  {
    match child
    case Node(node) => node
    case Sequence(writer) => SequenceNode(writer.items)
  }

  /** The entries as nodes, with each attached sequence writer's current items. */
  function Resolved(entries: seq<(string, Child)>): (r: seq<(string, YamlNode)>)
    reads WritersOf(entries)
    ensures |r| == |entries|
    decreases |entries|
  {
    if entries == [] then []
    else
      var init := entries[..|entries| - 1];
      assert WritersOf(init) <= WritersOf(entries) by {
        forall w | w in WritersOf(init) ensures w in WritersOf(entries) {
          var k :| 0 <= k < |init| && init[k].1.Sequence? && init[k].1.writer == w;
          assert entries[k] == init[k];
        }
      }
      var last := entries[|entries| - 1];
      Resolved(init) + [(last.0, Resolve(last.1))]
  }

  /** A `YamlMapping` being written: its entries in insertion order. */
  class YamlMapping {
    var entries: seq<(string, Child)>

    constructor ()
      ensures entries == []
    {
      entries := [];
    }

    /** What the mapping holds now, attached sequences included. */
    function Contents(): seq<(string, YamlNode)>
      reads this, WritersOf(entries)
    {
      Resolved(entries)
    }

    /** `addScalarNode(key, value)`. */
    method AddScalarNode(key: string, value: Scalar)
      modifies this
      ensures entries == old(entries) + [(key, Node(ScalarNode(value)))]
    {
      entries := entries + [(key, Node(ScalarNode(value)))];
    }

    /** `addNode(key, node)`. */
    method AddNode(key: string, node: YamlNode)
      modifies this
      ensures entries == old(entries) + [(key, Node(node))]
    {
      entries := entries + [(key, Node(node))];
    }

    /** `addSequenceNode(key)`: a new, empty sequence writer attached under `key`. */
    method AddSequenceNode(key: string) returns (sequence: YamlSequence)
      modifies this
      ensures fresh(sequence) && sequence.items == []
      ensures entries == old(entries) + [(key, Sequence(sequence))]
    {
      sequence := new YamlSequence();
      entries := entries + [(key, Sequence(sequence))];
    }
  }

  /** Appending an entry appends its resolved node. */
  lemma ResolvedAppend(entries: seq<(string, Child)>, key: string, child: Child)
    ensures Resolved(entries + [(key, child)]) == Resolved(entries) + [(key, Resolve(child))]
  {
    assert (entries + [(key, child)])[..|entries|] == entries;
  }
}
