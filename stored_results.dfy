/**
 * How an instrument keeps its result in its part's node: a single child node
 * named "ScienceData" holding the saved record.  Saving first removes every
 * such child, so no duplicates can build up.
 */
module StoredResults {
  import opened Options
  import opened ConfigNodes
  import opened ImpactRecords

  const ScienceDataNode := "ScienceData"

  /** The child node that `Save` fills for a record. */
  function DataNode(d: ImpactScienceData): Node
  {
    Node(ScienceDataNode, SaveValues(map[], d), [])
  }

  /** The node after the static `OnSave(node, data)`. */
  function StoreResult(n: Node, data: Option<ImpactScienceData>): Node
  {
    n.(nodes := WithoutNamed(n.nodes, ScienceDataNode) + (if data.Some? then [DataNode(data.value)] else []))
  }

  /** The record a node holds: the first "ScienceData" child, loaded. */
  function StoredResult(n: Node): (r: Option<ImpactScienceData>)
    ensures r.Some? <==> FirstNamed(n.nodes, ScienceDataNode).Some?
  {
    match FirstNamed(n.nodes, ScienceDataNode)
    case None => None
    case Some(child) => Some(FromNode(child))
  }

  /** After saving, there is exactly one "ScienceData" child when there is data and none otherwise. */
  lemma StoreResultCount(n: Node, data: Option<ImpactScienceData>)
    ensures CountNamed(StoreResult(n, data).nodes, ScienceDataNode) == (if data.Some? then 1 else 0)
    ensures StoreResult(n, data).values == n.values
  {
    var rest := WithoutNamed(n.nodes, ScienceDataNode);
    var added: seq<Node> := if data.Some? then [DataNode(data.value)] else [];
    CountNamedAppend(rest, added, ScienceDataNode);
  }

  /** What was saved is what is read back. */
  lemma StoreThenRead(n: Node, data: Option<ImpactScienceData>)
    ensures StoredResult(StoreResult(n, data)) == data
  {
    var rest := WithoutNamed(n.nodes, ScienceDataNode);
    var added: seq<Node> := if data.Some? then [DataNode(data.value)] else [];
    FirstNamedAppend(rest, added, ScienceDataNode);
    if data.Some? {
      SaveLoadRoundTrip(data.value, ScienceDataNode, []);
    }
  }

  /** Saving the same data twice leaves the node as saving it once. */
  lemma StoreResultIdempotent(n: Node, data: Option<ImpactScienceData>)
    ensures StoreResult(StoreResult(n, data), data) == StoreResult(n, data)
  {
    var rest := WithoutNamed(n.nodes, ScienceDataNode);
    var added: seq<Node> := if data.Some? then [DataNode(data.value)] else [];
    WithoutNamedAppend(rest, added, ScienceDataNode);
    WithoutNamedNoOp(rest, ScienceDataNode);
    assert WithoutNamed(added, ScienceDataNode) == [] by {
      if data.Some? {
        assert added[1..] == [];
      }
    }
    assert WithoutNamed(rest + added, ScienceDataNode) == rest;
  }
}
