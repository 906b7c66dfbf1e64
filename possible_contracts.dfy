/**
 * A candidate impact contract: a target body, an energy to reach and an
 * optional biome, plus a selection weight.  It is saved into a node as
 * `BodyName`, `Energy` (only when non-zero) and `Biome` (only when present);
 * the weight is not saved.  Loading looks the body up by name among the
 * game's bodies.
 */
module PossibleContracts {
  import opened Options
  import opened Host
  import opened ConfigNodes

  datatype PossibleContract = PossibleContract(probability: real, body: Option<Body>, energy: real, biome: Option<string>)

  const BodyNameKey := "BodyName"
  const EnergyKey := "Energy"
  const BiomeKey := "Biome"

  /** `FlightGlobals.Bodies.Find`: the first body with that name. */
  function FindBody(bodies: seq<Body>, name: string): (r: Option<Body>)
    ensures r.Some? ==> r.value in bodies && r.value.name == name
    ensures r.None? <==> forall b :: b in bodies ==> b.name != name
  {
    if bodies == [] then None
    else if bodies[0].name == name then Some(bodies[0])
    else FindBody(bodies[1..], name)
  }

  /**
   * The node constructor: the body named in the node (none when the name is
   * missing or unknown), the energy and biome when present, and weight 0.
   */
  function Load(node: Node, bodies: seq<Body>): (pc: PossibleContract)
    ensures pc.probability == 0.0
    ensures !(EnergyKey in node.values) ==> pc.energy == 0.0
    ensures !(BiomeKey in node.values) ==> pc.biome == None
    ensures !(BodyNameKey in node.values) ==> pc.body == None
    ensures pc.body.Some? ==> pc.body.value in bodies && Some(Text(pc.body.value.name)) == Lookup(node.values, BodyNameKey)
    ensures EnergyKey in node.values && node.values[EnergyKey].Num? ==> pc.energy == node.values[EnergyKey].x
    ensures BiomeKey in node.values && node.values[BiomeKey].Text? ==> pc.biome == Some(node.values[BiomeKey].s)
    ensures BodyNameKey in node.values && node.values[BodyNameKey].Text? ==> pc.body == FindBody(bodies, node.values[BodyNameKey].s)
  {
    var name := ReadText(node.values, BodyNameKey, None);
    PossibleContract(
      0.0,
      if name.Some? then FindBody(bodies, name.value) else None,
      ReadReal(node.values, EnergyKey, 0.0),
      ReadText(node.values, BiomeKey, None))
  }

  function Lookup(values: map<string, Value>, key: string): Option<Value>
  {
    if key in values then Some(values[key]) else None
  }

  /** The values `save` adds: the body name always, the energy unless 0, the biome when present. */
  function SaveValues(values: map<string, Value>, pc: PossibleContract): map<string, Value>
    requires pc.body.Some?
  {
    var v1 := AddValueTo(values, BodyNameKey, Text(pc.body.value.name));
    var v2 := if pc.energy != 0.0 then AddValueTo(v1, EnergyKey, Num(pc.energy)) else v1;
    if pc.biome.Some? then AddValueTo(v2, BiomeKey, Text(pc.biome.value)) else v2
  }

  /** `save`: the contract must have a body, whose name is written first. */
  method Save(pc: PossibleContract, node: ConfigNode)
    requires pc.body.Some?
    modifies node
    ensures node.values == SaveValues(old(node.values), pc) && node.nodes == old(node.nodes)
  {
    node.AddValue(BodyNameKey, Text(pc.body.value.name));
    if pc.energy != 0.0 {
      node.AddValue(EnergyKey, Num(pc.energy));
    }
    if pc.biome.Some? {
      node.AddValue(BiomeKey, Text(pc.biome.value));
    }
  }

  /** Saving into an empty node writes exactly the keys the contract has values for. */
  lemma SavedKeys(pc: PossibleContract)
    requires pc.body.Some?
    ensures BodyNameKey in SaveValues(map[], pc)
    ensures EnergyKey in SaveValues(map[], pc) <==> pc.energy != 0.0
    ensures BiomeKey in SaveValues(map[], pc) <==> pc.biome.Some?
    ensures SaveValues(map[], pc).Keys <= {BodyNameKey, EnergyKey, BiomeKey}
  {
  }

  /**
   * Saving and loading gives the contract back, all but its weight, provided
   * its body is the first of the game's bodies with that name.
   */
  lemma SaveLoadRoundTrip(pc: PossibleContract, bodies: seq<Body>, name: string, children: seq<Node>)
    requires pc.body.Some? && FindBody(bodies, pc.body.value.name) == pc.body
    ensures Load(Node(name, SaveValues(map[], pc), children), bodies) == pc.(probability := 0.0)
  {
    var values := SaveValues(map[], pc);
    assert values[BodyNameKey] == Text(pc.body.value.name);
    if pc.energy != 0.0 {
      assert values[EnergyKey] == Num(pc.energy);
    } else {
      assert EnergyKey !in values;
    }
    if pc.biome.Some? {
      assert values[BiomeKey] == Text(pc.biome.value);
    } else {
      assert BiomeKey !in values;
    }
  }

  /** `ProbComparer.Compare`: orders contracts by weight. */
  function Compare(p1: PossibleContract, p2: PossibleContract): (r: int)
    ensures r < 0 <==> p1.probability < p2.probability
    ensures r == 0 <==> p1.probability == p2.probability
    ensures r > 0 <==> p1.probability > p2.probability
  {
    if p1.probability < p2.probability then -1
    else if p1.probability == p2.probability then 0
    else 1
  }

  /** Swapping the arguments reverses the order. */
  lemma CompareAntisymmetric(p1: PossibleContract, p2: PossibleContract)
    ensures Compare(p1, p2) == -Compare(p2, p1)
  {
  }
}
