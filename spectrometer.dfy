/**
 * The spectrometer part module: it keeps the best impact record it has seen,
 * judged by the amount of science alone.  In memory and in a part's stored
 * node alike, a new record replaces the kept one only when its amount is
 * strictly greater.
 */
module Spectrometers {
  import opened Options
  import opened ConfigNodes
  import opened ImpactRecords
  import opened StoredResults

  /** The in-memory rule of `addExperiment` and `ReturnData`. */
  predicate Improves(stored: ImpactScienceData, newData: ImpactScienceData)
  {
    newData.dataAmount > stored.dataAmount
  }

  /** The result kept after offering `newData` to an instrument holding `result`. */
  function Kept(result: Option<ImpactScienceData>, newData: ImpactScienceData): Option<ImpactScienceData>
  {
    if result.None? || Improves(result.value, newData) then Some(newData) else result
  }

  /** The stored-node rule of `NewResult`: the new record is discarded when its amount is not greater. */
  predicate StoredWins(stored: ImpactScienceData, newData: ImpactScienceData)
  {
    newData.dataAmount <= stored.dataAmount
  }

  /** The part node after `NewResult(node, newData)`. */
  function NewResultNode(n: Node, newData: ImpactScienceData): Node
  {
    match StoredResult(n)
    case Some(stored) => if StoredWins(stored, newData) then n else StoreResult(n, Some(newData))
    case None => StoreResult(n, Some(newData))
  }

  class Spectrometer {
    var result: Option<ImpactScienceData>

    constructor ()
      ensures result == None
    {
      result := None;
    }

    /** Takes the stored record when the node has one; otherwise keeps the current result. */
    method OnLoad(node: Node)
      modifies this
      ensures result == if StoredResult(node).Some? then StoredResult(node) else old(result)
    {
      var stored := FirstNamed(node.nodes, ScienceDataNode);
      if stored.Some? {
        result := Some(FromNode(stored.value));
      }
    }

    method OnSave(node: ConfigNode)
      modifies node
      ensures node.Snapshot() == StoreResult(old(node.Snapshot()), result)
    {
      SaveResult(node, result);
    }

    /** The static `OnSave(node, data)`: drop every stored record, then store `data` if there is one. */
    static method SaveResult(node: ConfigNode, data: Option<ImpactScienceData>)
      modifies node
      ensures node.Snapshot() == StoreResult(old(node.Snapshot()), data)
    {
      node.RemoveNodes(ScienceDataNode);
      if data.Some? {
        var stored := new ConfigNode(ScienceDataNode);
        Save(data.value, stored);
        node.AddNode(stored.Snapshot());
      }
    }

    /** Offers a record to the node of a part that is not loaded. */
    static method NewResult(node: ConfigNode, newData: ImpactScienceData)
      modifies node
      ensures node.Snapshot() == NewResultNode(old(node.Snapshot()), newData)
    {
      var storedNode := FirstNamed(node.nodes, ScienceDataNode);
      if storedNode.Some? {
        var data := FromNode(storedNode.value);
        if newData.dataAmount <= data.dataAmount {
          return;
        }
      }
      SaveResult(node, Some(newData));
    }

    /** Data handed back to the instrument; nothing happens when there is none. */
    method ReturnData(data: Option<ImpactScienceData>)
      modifies this
      ensures result == if data.None? then old(result) else Kept(old(result), data.value)
    {
      if data.Some? {
        if result.None? {
          result := data;
        } else if data.value.dataAmount > result.value.dataAmount {
          result := data;
        }
      }
    }

    method AddExperiment(newData: ImpactScienceData)
      modifies this
      ensures result == Kept(old(result), newData)
    {
      if result.None? || newData.dataAmount > result.value.dataAmount {
        result := Some(newData);
      }
    }

    function GetScienceCount(): (n: int)
      reads this
      ensures n == 1 <==> result.Some?
      ensures n == 0 <==> result.None?
    {
      if result.Some? then 1 else 0
    }

    /** The kept record as a list: one element when there is a result, none otherwise. */
    function GetImpactData(): (r: seq<ImpactScienceData>)
      reads this
      ensures |r| == GetScienceCount()
      ensures forall d :: d in r <==> result == Some(d)
    {
      if result.Some? then [result.value] else []
    }

    /** The same list, typed as plain science data in the game. */
    function GetData(): (r: seq<ImpactScienceData>)
      reads this
      ensures |r| == GetScienceCount()
      ensures forall d :: d in r <==> result == Some(d)
    {
      GetImpactData()
    }

    method DumpData(data: ImpactScienceData)
      modifies this
      ensures result == None
    {
      result := None;
    }

    /** Only closes the result dialog, which is not modelled; the result stays. */
    method KeepData(data: ImpactScienceData)
      modifies this
      ensures result == old(result)
    {
    }
  }

  /** The kept result never has less science than the one held before. */
  lemma KeptNeverWorse(result: Option<ImpactScienceData>, newData: ImpactScienceData)
    ensures Kept(result, newData).Some?
    ensures result.Some? ==> Kept(result, newData).value.dataAmount >= result.value.dataAmount
  {
  }

  /** Unlike the seismometer's, the spectrometer's two rules agree: a node ends up holding what memory would keep. */
  lemma NodeRuleMatchesMemoryRule(n: Node, result: Option<ImpactScienceData>, newData: ImpactScienceData)
    ensures StoredResult(NewResultNode(StoreResult(n, result), newData)) == Kept(result, newData)
  {
    StoreThenRead(n, result);
    StoreThenRead(StoreResult(n, result), Some(newData));
  }

  /** After `NewResult` the node holds exactly one record: the stored one when it won, the new one otherwise. */
  lemma NewResultKeepsOneRecord(n: Node, newData: ImpactScienceData)
    requires CountNamed(n.nodes, ScienceDataNode) <= 1
    ensures CountNamed(NewResultNode(n, newData).nodes, ScienceDataNode) == 1
    ensures StoredResult(NewResultNode(n, newData)) ==
      if StoredResult(n).Some? && StoredWins(StoredResult(n).value, newData) then StoredResult(n) else Some(newData)
  {
    StoreResultCount(n, Some(newData));
    StoreThenRead(n, Some(newData));
    if StoredResult(n).Some? {
      CountOneWhenPresent(n.nodes, ScienceDataNode);
    }
  }

  /** Offering the same record twice leaves the node as offering it once. */
  lemma NewResultIdempotent(n: Node, newData: ImpactScienceData)
    ensures NewResultNode(NewResultNode(n, newData), newData) == NewResultNode(n, newData)
  {
    var once := NewResultNode(n, newData);
    if once != n {
      assert once == StoreResult(n, Some(newData));
      StoreThenRead(n, Some(newData));
      StoreResultIdempotent(n, Some(newData));
    }
  }
}
