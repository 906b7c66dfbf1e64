/**
 * The two goals of an impact contract.  Each listens on one of the
 * coordinator's two channels: the bang channel, fired whenever an impact
 * record is made, and the science channel, fired whenever a record reaches
 * home.  A goal completes when a record has at least the contract's energy
 * and its subject belongs to the contract's body.  A channel is the list of
 * its handlers.
 */
module ContractParameters {
  import opened Options
  import opened Host
  import opened ConfigNodes
  import ImpactRecords
  import opened PossibleContracts

  datatype ParameterState = Incomplete | Complete | Failed

  /** What the game knows of a record's subject: its body's name and whether it is a low-space subject. */
  datatype SubjectFacts = SubjectFacts(bodyName: string, inSpaceLow: bool)

  /** `IsFromBody`: no subject is from a missing body. */
  predicate FromBody(subject: SubjectFacts, body: Option<Body>)
  {
    body.Some? && subject.bodyName == body.value.name
  }

  /** The test of `OnBang` and `OnScience`: enough energy, on the right body. */
  predicate Satisfies(contract: PossibleContract, data: ImpactRecords.ImpactScienceData, subject: SubjectFacts)
  {
    data.kineticEnergy >= contract.energy && FromBody(subject, contract.body)
  }

  /** The biome test inside it, which both of its branches ignore. */
  predicate BiomeMatches(contract: PossibleContract, data: ImpactRecords.ImpactScienceData, subject: SubjectFacts)
  {
    contract.biome.Some? && subject.inSpaceLow && data.biome == contract.biome
  }

  datatype Handler = BangHandler(impact: ImpactParameter) | ScienceHandler(receipt: ScienceReceiptParameter)

  /** `Remove`: every registration of the handler is dropped, the others keep their order. */
  function Removed(handlers: seq<Handler>, h: Handler): (r: seq<Handler>)
    ensures h !in r
    ensures forall i :: 0 <= i < |r| ==> r[i] in handlers
    ensures forall i :: 0 <= i < |handlers| && handlers[i] != h ==> handlers[i] in r
    ensures |r| <= |handlers|
    ensures h !in handlers ==> r == handlers
  {
    if handlers == [] then []
    else if handlers[0] == h then Removed(handlers[1..], h)
    else [handlers[0]] + Removed(handlers[1..], h)
  }

  /** Removing keeps the order of the other handlers: it works piece by piece over a concatenation. */
  lemma {:induction false} RemovedAppend(a: seq<Handler>, b: seq<Handler>, h: Handler)
    ensures Removed(a + b, h) == Removed(a, h) + Removed(b, h)
  {
    if a == [] {
      assert a + b == b;
    } else {
      assert (a + b)[0] == a[0];
      assert (a + b)[1..] == a[1..] + b;
      RemovedAppend(a[1..], b, h);
    }
  }

  /** Adding a handler and removing it again leaves a channel as it was, when it was not there before. */
  lemma {:induction false} AddThenRemove(handlers: seq<Handler>, h: Handler)
    requires h !in handlers
    ensures Removed(handlers + [h], h) == handlers
  {
    if handlers != [] {
      assert (handlers + [h])[1..] == handlers[1..] + [h];
      AddThenRemove(handlers[1..], h);
    } else {
      assert Removed([h][1..], h) == [];
    }
  }

  /** The coordinator's two channels. */
  class Coordinator {
    var bangListeners: seq<Handler>
    var scienceListeners: seq<Handler>

    constructor ()
      ensures bangListeners == [] && scienceListeners == []
    {
      bangListeners := [];
      scienceListeners := [];
    }
  }

  /** The goal met by an impact record being made. */
  class ImpactParameter {
    var contract: PossibleContract
    var state: ParameterState

    constructor (contract: PossibleContract)
      ensures this.contract == contract && state == Incomplete
    {
      this.contract := contract;
      state := Incomplete;
    }

    method OnRegister(coordinator: Coordinator)
      modifies coordinator
      ensures coordinator.bangListeners == old(coordinator.bangListeners) + [BangHandler(this)]
      ensures coordinator.scienceListeners == old(coordinator.scienceListeners)
    {
      coordinator.bangListeners := coordinator.bangListeners + [BangHandler(this)];
    }

    method OnUnregister(coordinator: Coordinator)
      modifies coordinator
      ensures coordinator.bangListeners == Removed(old(coordinator.bangListeners), BangHandler(this))
      ensures coordinator.scienceListeners == old(coordinator.scienceListeners)
    {
      coordinator.bangListeners := Removed(coordinator.bangListeners, BangHandler(this));
    }

    /** Completes on a satisfying record, whatever its biome; otherwise nothing changes. */
    method OnBang(data: ImpactRecords.ImpactScienceData, subject: SubjectFacts)
      modifies this
      ensures state == if Satisfies(contract, data, subject) then Complete else old(state)
      ensures contract == old(contract)
    {
      if data.kineticEnergy >= contract.energy && FromBody(subject, contract.body) {
        if BiomeMatches(contract, data, subject) {
          state := Complete;
        } else {
          state := Complete;
        }
      }
    }

    method OnLoad(node: Node, bodies: seq<Body>)
      modifies this
      ensures contract == Load(node, bodies) && state == old(state)
    {
      contract := Load(node, bodies);
    }

    method OnSave(node: ConfigNode)
      requires contract.body.Some?
      modifies node
      ensures node.values == SaveValues(old(node.values), contract) && node.nodes == old(node.nodes)
    {
      Save(contract, node);
    }
  }

  /** The goal met by an impact record reaching home. */
  class ScienceReceiptParameter {
    var contract: PossibleContract
    var state: ParameterState

    constructor (contract: PossibleContract)
      ensures this.contract == contract && state == Incomplete
    {
      this.contract := contract;
      state := Incomplete;
    }

    method OnRegister(coordinator: Coordinator)
      modifies coordinator
      ensures coordinator.scienceListeners == old(coordinator.scienceListeners) + [ScienceHandler(this)]
      ensures coordinator.bangListeners == old(coordinator.bangListeners)
    {
      coordinator.scienceListeners := coordinator.scienceListeners + [ScienceHandler(this)];
    }

    /** `OnUnregister` as written: it removes the handler from the bang channel, where it was never added. */
    method OnUnregisterAsWritten(coordinator: Coordinator)
      modifies coordinator
      ensures coordinator.bangListeners == Removed(old(coordinator.bangListeners), ScienceHandler(this))
      ensures coordinator.scienceListeners == old(coordinator.scienceListeners)
    {
      coordinator.bangListeners := Removed(coordinator.bangListeners, ScienceHandler(this));
    }

    /** `OnUnregister` corrected: it removes the handler from the channel it was added to. */
    method OnUnregister(coordinator: Coordinator)
      modifies coordinator
      ensures coordinator.scienceListeners == Removed(old(coordinator.scienceListeners), ScienceHandler(this))
      ensures coordinator.bangListeners == old(coordinator.bangListeners)
    {
      coordinator.scienceListeners := Removed(coordinator.scienceListeners, ScienceHandler(this));
    }

    /** Completes on a satisfying record, whatever its biome; otherwise nothing changes. */
    method OnScience(data: ImpactRecords.ImpactScienceData, subject: SubjectFacts)
      modifies this
      ensures state == if Satisfies(contract, data, subject) then Complete else old(state)
      ensures contract == old(contract)
    {
      if data.kineticEnergy >= contract.energy && FromBody(subject, contract.body) {
        if BiomeMatches(contract, data, subject) {
          state := Complete;
        } else {
          state := Complete;
        }
      }
    }

    method OnLoad(node: Node, bodies: seq<Body>)
      modifies this
      ensures contract == Load(node, bodies) && state == old(state)
    {
      contract := Load(node, bodies);
    }

    method OnSave(node: ConfigNode)
      requires contract.body.Some?
      modifies node
      ensures node.values == SaveValues(old(node.values), contract) && node.nodes == old(node.nodes)
    {
      Save(contract, node);
    }
  }

  /** The biome of a record never decides whether a goal is met. */
  lemma BiomeNeverDecides(contract: PossibleContract, data: ImpactRecords.ImpactScienceData, subject: SubjectFacts, biome: Option<string>)
    ensures Satisfies(contract, data, subject) == Satisfies(contract, data.(biome := biome), subject)
  {
  }

  /**
   * An impact goal that registers and then unregisters leaves the bang
   * channel as it found it.
   */
  method ImpactGoalLifecycle(p: ImpactParameter, coordinator: Coordinator)
    requires BangHandler(p) !in coordinator.bangListeners
    modifies coordinator
    ensures coordinator.bangListeners == old(coordinator.bangListeners)
    ensures coordinator.scienceListeners == old(coordinator.scienceListeners)
  {
    p.OnRegister(coordinator);
    p.OnUnregister(coordinator);
    AddThenRemove(old(coordinator.bangListeners), BangHandler(p));
  }

  /**
   * As written, a receipt goal that registers and then unregisters stays on
   * the science channel.
   */
  method ReceiptGoalLifecycleAsWritten(p: ScienceReceiptParameter, coordinator: Coordinator)
    requires ScienceHandler(p) !in coordinator.bangListeners
    modifies coordinator
    ensures ScienceHandler(p) in coordinator.scienceListeners
    ensures coordinator.scienceListeners == old(coordinator.scienceListeners) + [ScienceHandler(p)]
    ensures coordinator.bangListeners == old(coordinator.bangListeners)
  {
    p.OnRegister(coordinator);
    p.OnUnregisterAsWritten(coordinator);
  }

  /** Corrected, a receipt goal that registers and then unregisters leaves both channels as they were. */
  method ReceiptGoalLifecycle(p: ScienceReceiptParameter, coordinator: Coordinator)
    requires ScienceHandler(p) !in coordinator.scienceListeners
    modifies coordinator
    ensures coordinator.scienceListeners == old(coordinator.scienceListeners)
    ensures coordinator.bangListeners == old(coordinator.bangListeners)
  {
    p.OnRegister(coordinator);
    p.OnUnregister(coordinator);
    AddThenRemove(old(coordinator.scienceListeners), ScienceHandler(p));
  }
}
