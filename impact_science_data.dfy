/**
 * The science record produced by an impact: the game's science-data fields
 * (amount, transmit value, lab boost, subject) plus the crash energy and an
 * optional biome.  Its properties have private setters and are only loaded
 * while the record is built from a node, so the record is a value here:
 * loading is a function of a node, saving appends values to a node.
 */
module ImpactRecords {
  import opened Options
  import opened ConfigNodes

  datatype ImpactScienceData = ImpactScienceData(
    kineticEnergy: real,
    biome: Option<string>,
    dataAmount: real,
    transmitValue: real,
    labBoost: real,
    subjectID: string)

  const EnergyName := "KineticEnergy"
  const BiomeName := "Biome"

  // Names under which the game's science-data base class keeps its own fields.
  const DataName := "data"
  const SubjectName := "subjectID"
  const XmitName := "xmit"
  const LabBoostName := "labBoost"

  /** The record built by the energy constructor: its biome is never assigned. */
  function WithEnergy(energy: real, amount: real, xmitValue: real, labBoost: real, id: string): (d: ImpactScienceData)
    ensures d.biome == None && d.kineticEnergy == energy
    ensures d.dataAmount == amount && d.transmitValue == xmitValue && d.labBoost == labBoost && d.subjectID == id
  {
    ImpactScienceData(energy, None, amount, xmitValue, labBoost, id)
  }

  /** The record built by the biome constructor: its energy is never assigned and stays 0. */
  function WithBiome(biome: string, amount: real, xmitValue: real, labBoost: real, id: string): (d: ImpactScienceData)
    ensures d.kineticEnergy == 0.0 && d.biome == Some(biome)
    ensures d.dataAmount == amount && d.transmitValue == xmitValue && d.labBoost == labBoost && d.subjectID == id
  {
    ImpactScienceData(0.0, Some(biome), amount, xmitValue, labBoost, id)
  }

  /** A record before anything is loaded into it. */
  const Blank := ImpactScienceData(0.0, None, 0.0, 0.0, 0.0, "")

  /** The base class's load: each of its fields is replaced when the node holds it. */
  function BaseLoad(d: ImpactScienceData, node: Node): ImpactScienceData
  {
    var id := ReadText(node.values, SubjectName, Some(d.subjectID));
    d.(dataAmount := ReadReal(node.values, DataName, d.dataAmount),
       subjectID := id.value,
       transmitValue := ReadReal(node.values, XmitName, d.transmitValue),
       labBoost := ReadReal(node.values, LabBoostName, d.labBoost))
  }

  /** `Load`: the base fields, then the energy and the biome, each only when present. */
  function Load(d: ImpactScienceData, node: Node): (r: ImpactScienceData)
    ensures !(EnergyName in node.values) ==> r.kineticEnergy == d.kineticEnergy
    ensures !(BiomeName in node.values) ==> r.biome == d.biome
    ensures EnergyName in node.values && node.values[EnergyName].Num? ==> r.kineticEnergy == node.values[EnergyName].x
    ensures BiomeName in node.values && node.values[BiomeName].Text? ==> r.biome == Some(node.values[BiomeName].s)
  {
    var b := BaseLoad(d, node);
    b.(kineticEnergy := ReadReal(node.values, EnergyName, b.kineticEnergy),
       biome := ReadText(node.values, BiomeName, b.biome))
  }

  /** The node constructor: the base constructor loads the base fields, then `Load` runs. */
  function FromNode(node: Node): ImpactScienceData
  {
    Load(BaseLoad(Blank, node), node)
  }

  /** The values the base class's save adds. */
  function BaseSaveValues(values: map<string, Value>, d: ImpactScienceData): map<string, Value>
  {
    var v1 := AddValueTo(values, DataName, Num(d.dataAmount));
    var v2 := AddValueTo(v1, SubjectName, Text(d.subjectID));
    var v3 := AddValueTo(v2, XmitName, Num(d.transmitValue));
    AddValueTo(v3, LabBoostName, Num(d.labBoost))
  }

  /** The values `Save` leaves in a node that held `values`. */
  function SaveValues(values: map<string, Value>, d: ImpactScienceData): map<string, Value>
  {
    var withEnergy := AddValueTo(BaseSaveValues(values, d), EnergyName, Num(d.kineticEnergy));
    if d.biome.Some? then AddValueTo(withEnergy, BiomeName, Text(d.biome.value)) else withEnergy
  }

  method BaseSave(d: ImpactScienceData, node: ConfigNode)
    modifies node
    ensures node.values == BaseSaveValues(old(node.values), d) && node.nodes == old(node.nodes)
  {
    node.AddValue(DataName, Num(d.dataAmount));
    node.AddValue(SubjectName, Text(d.subjectID));
    node.AddValue(XmitName, Num(d.transmitValue));
    node.AddValue(LabBoostName, Num(d.labBoost));
  }

  /** `Save`: base fields, the energy always, the biome only when there is one. */
  method Save(d: ImpactScienceData, node: ConfigNode)
    modifies node
    ensures node.values == SaveValues(old(node.values), d) && node.nodes == old(node.nodes)
  {
    BaseSave(d, node);
    node.AddValue(EnergyName, Num(d.kineticEnergy));
    if d.biome.Some? {
      node.AddValue(BiomeName, Text(d.biome.value));
    }
  }

  /** Saved into an empty node, a record always carries its energy and carries a biome exactly when it has one. */
  lemma SaveWritesEnergyAndBiome(d: ImpactScienceData)
    ensures EnergyName in SaveValues(map[], d) && SaveValues(map[], d)[EnergyName] == Num(d.kineticEnergy)
    ensures BiomeName in SaveValues(map[], d) <==> d.biome.Some?
  {
  }

  /** A biome record is saved with KineticEnergy 0. */
  lemma BiomeRecordSavesZeroEnergy(biome: string, amount: real, xmitValue: real, labBoost: real, id: string)
    ensures SaveValues(map[], WithBiome(biome, amount, xmitValue, labBoost, id))[EnergyName] == Num(0.0)
  {
    SaveWritesEnergyAndBiome(WithBiome(biome, amount, xmitValue, labBoost, id));
  }

  /** Loading a node written by `Save` gives the record back. */
  lemma SaveLoadRoundTrip(d: ImpactScienceData, name: string, children: seq<Node>)
    ensures FromNode(Node(name, SaveValues(map[], d), children)) == d
  {
  }
}
