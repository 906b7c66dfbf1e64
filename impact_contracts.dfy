/**
 * Generation of seismic impact contracts.  Every reached airless body that
 * no current seismic contract targets becomes a candidate, with an energy
 * target drawn from the band of science its star rating asks for.  One
 * candidate is then chosen by a weighted pick: a draw scaled by the last
 * (cumulative) weight is looked up with a binary search over the weights.
 * Random draws are inputs in [0, 1).
 */
module ImpactContracts {
  import opened Options
  import opened Host
  import opened ScoreTranslation
  import opened ConfigNodes
  import opened PossibleContracts

  datatype Prestige = Trivial | Significant | Exceptional

  /** The `starRatings` table: one to three stars by prestige. */
  function StarRating(p: Prestige): int
  {
    match p
    case Trivial => 1
    case Significant => 2
    case Exceptional => 3
  }

  const ValuesNode := "ContractValues"

  /** Every prestige has a rating, and the ratings rise with prestige. */
  lemma StarRatingsRise()
    ensures forall p :: 1 <= StarRating(p) <= 3
    ensures StarRating(Trivial) < StarRating(Significant) < StarRating(Exceptional)
  {
  }

  // ---- Energy targets ----

  /** `pickKE`'s goal: the point `draw` of the way through the star band [(stars-1)/3, stars/3) of the cap. */
  function GoalScience(stars: real, cap: real, draw: real): real
  {
    var minSci := (stars - 1.0) / 3.0 * cap;
    var maxSci := stars / 3.0 * cap;
    minSci + draw * (maxSci - minSci)
  }

  /** The goal lies in the band: at least its lower end, below its upper end. */
  lemma GoalInBand(stars: real, cap: real, draw: real)
    requires 0.0 <= draw < 1.0 && cap > 0.0
    ensures (stars - 1.0) / 3.0 * cap <= GoalScience(stars, cap, draw) < stars / 3.0 * cap
  {
    FractionOfWidth(draw, cap, draw * cap);
    assert GoalScience(stars, cap, draw) == (stars - 1.0) / 3.0 * cap + draw * cap / 3.0;
  }

  /** A fraction in [0, 1) of a positive width is below the width. */
  lemma FractionOfWidth(draw: real, width: real, part: real)
    requires 0.0 <= draw < 1.0 && width > 0.0 && part == draw * width
    ensures 0.0 <= part < width
  {
    assert (1.0 - draw) * width > 0.0;
  }

  /** For one to three stars the band lies within [0, cap]. */
  lemma BandWithinCap(stars: real, cap: real)
    requires 1.0 <= stars <= 3.0 && cap > 0.0
    ensures 0.0 <= (stars - 1.0) / 3.0 * cap && stars / 3.0 * cap <= cap
  {
    assert (stars - 1.0) / 3.0 >= 0.0;
    assert 1.0 - stars / 3.0 >= 0.0;
    assert cap - stars / 3.0 * cap == (1.0 - stars / 3.0) * cap;
  }

  /** `pickKE`: the energy whose crash earns the goal science. */
  function PickKE(stars: real, subject: ScienceSubject, body: Body, draw: real): real
    requires body.radius != 0.0 && subject.scienceCap != 0.0
  {
    ScienceToKE(GoalScience(stars, subject.scienceCap, draw), body, subject)
  }

  /**
   * A crash of exactly the picked energy earns exactly the goal science, and
   * the picked energy lies between the energies of the band's two ends.
   */
  lemma PickKEEarnsGoal(prestige: Prestige, subject: ScienceSubject, body: Body, draw: real, sqrt: real -> real)
    requires IsSquareRoot(sqrt) && Physical(body) && Sound(subject) && 0.0 <= draw < 1.0
    ensures var stars := StarRating(prestige) as real;
      var goal := GoalScience(stars, subject.scienceCap, draw);
      && (stars - 1.0) / 3.0 * subject.scienceCap <= goal < stars / 3.0 * subject.scienceCap
      && KEToScience(PickKE(stars, subject, body, draw), body, subject, sqrt) == goal
      && ScienceToKE((stars - 1.0) / 3.0 * subject.scienceCap, body, subject) <= PickKE(stars, subject, body, draw)
      && PickKE(stars, subject, body, draw) <= ScienceToKE(stars / 3.0 * subject.scienceCap, body, subject)
  {
    StarRatingsRise();
    var stars := StarRating(prestige) as real;
    var cap := subject.scienceCap;
    var goal := GoalScience(stars, cap, draw);
    GoalInBand(stars, cap, draw);
    BandWithinCap(stars, cap);
    ScienceRoundTrip(goal, body, subject, sqrt);
    ScienceToKEMonotone((stars - 1.0) / 3.0 * cap, goal, body, subject);
    ScienceToKEMonotone(goal, stars / 3.0 * cap, body, subject);
  }

  // ---- Candidates ----

  /** `Where(body => !body.atmosphere)`. */
  function Airless(bodies: seq<Body>): (r: seq<Body>)
    ensures forall b :: b in r <==> b in bodies && !b.atmosphere
    ensures |r| <= |bodies|
  {
    if bodies == [] then []
    else
      var last := bodies[|bodies| - 1];
      Airless(bodies[..|bodies| - 1]) + (if last.atmosphere then [] else [last])
  }

  /** The bodies no current seismic contract targets, in order. */
  function Untargeted(bodies: seq<Body>, taken: seq<Body>): (r: seq<Body>)
    ensures |r| <= |bodies|
  {
    if bodies == [] then []
    else
      var last := bodies[|bodies| - 1];
      Untargeted(bodies[..|bodies| - 1], taken) + (if last in taken then [] else [last])
  }

  /** A body is offered exactly when it is listed and no current contract targets it. */
  lemma {:induction false} UntargetedMembers(bodies: seq<Body>, taken: seq<Body>)
    ensures forall b :: b in Untargeted(bodies, taken) <==> b in bodies && b !in taken
  {
    if bodies != [] {
      var init := bodies[..|bodies| - 1];
      UntargetedMembers(init, taken);
      assert bodies == init + [bodies[|bodies| - 1]];
    }
  }

  predicate Distinct(bodies: seq<Body>)
  {
    forall i, j :: 0 <= i < j < |bodies| ==> bodies[i] != bodies[j]
  }

  /** When the game lists each body once, no body gets two candidates. */
  lemma {:induction false} UntargetedDistinct(bodies: seq<Body>, taken: seq<Body>)
    requires Distinct(bodies)
    ensures Distinct(Untargeted(bodies, taken))
  {
    if bodies != [] {
      var init := bodies[..|bodies| - 1];
      var last := bodies[|bodies| - 1];
      assert Distinct(init);
      UntargetedDistinct(init, taken);
      UntargetedMembers(init, taken);
      assert last !in init;
      assert last !in Untargeted(init, taken);
    }
  }

  /** The weight the source gives every candidate. */
  function AsWrittenWeight(k: nat): real
  {
    1.0
  }

  /** The running total of unit weights, which a weighted pick searches. */
  function CumulativeWeight(k: nat): real
  {
    (k + 1) as real
  }

  /** The weights of n candidates. */
  function WeightList(n: nat, weight: nat -> real): (ws: seq<real>)
    ensures |ws| == n && forall k :: 0 <= k < n ==> ws[k] == weight(k)
  {
    seq(n, k requires 0 <= k => weight(k))
  }

  /** Every listed body has a radius and a subject with a cap, so energies can be picked for it. */
  predicate Invertible(bodies: seq<Body>, subjectFor: Body -> ScienceSubject)
  {
    forall k :: 0 <= k < |bodies| ==> bodies[k].radius != 0.0 && subjectFor(bodies[k]).scienceCap != 0.0
  }

  /** `energyFor` can price every listed body with any draw. */
  ghost predicate Priced(bodies: seq<Body>, energyFor: (Body, real) --> real)
  {
    forall k, draw :: 0 <= k < |bodies| ==> energyFor.requires(bodies[k], draw)
  }

  /** `pickKE` at a star rating, as a function of the body and the draw. */
  function EnergyFor(stars: real, subjectFor: Body -> ScienceSubject): (Body, real) --> real
  {
    (b: Body, draw: real) requires b.radius != 0.0 && subjectFor(b).scienceCap != 0.0 => PickKE(stars, subjectFor(b), b, draw)
  }

  /** The k-th candidate: the body, the k-th weight, and the energy picked for the body with the k-th draw. */
  function Candidate(body: Body, k: nat, draw: real, weight: nat -> real, energyFor: (Body, real) --> real): PossibleContract
    requires energyFor.requires(body, draw)
  {
    PossibleContract(weight(k), Some(body), energyFor(body, draw), None)
  }

  /** The candidates for the offered bodies: the k-th body with the k-th weight and draw. */
  function Candidates(offered: seq<Body>, draws: seq<real>, weight: nat -> real, energyFor: (Body, real) --> real)
    : (r: seq<PossibleContract>)
    requires Priced(offered, energyFor) && |draws| >= |offered|
    ensures |r| == |offered|
  {
    if offered == [] then []
    else
      var n := |offered| - 1;
      Candidates(offered[..n], draws, weight, energyFor) + [Candidate(offered[n], n, draws[n], weight, energyFor)]
  }

  /** Candidate k is built from the k-th offered body and the k-th draw. */
  lemma {:induction false} CandidateAt(offered: seq<Body>, draws: seq<real>, weight: nat -> real,
                                       energyFor: (Body, real) --> real, k: nat)
    requires Priced(offered, energyFor) && |draws| >= |offered| && k < |offered|
    ensures Candidates(offered, draws, weight, energyFor)[k] == Candidate(offered[k], k, draws[k], weight, energyFor)
  {
    var n := |offered| - 1;
    if k < n {
      CandidateAt(offered[..n], draws, weight, energyFor, k);
    }
  }

  /** Scanning one more body appends it when it is not taken; scanning all of them gives the whole list. */
  lemma UntargetedStep(bodies: seq<Body>, taken: seq<Body>, i: nat)
    requires i <= |bodies|
    ensures i < |bodies| ==>
      Untargeted(bodies[..i + 1], taken) == Untargeted(bodies[..i], taken) + (if bodies[i] in taken then [] else [bodies[i]])
    ensures i == |bodies| ==> Untargeted(bodies[..i], taken) == Untargeted(bodies, taken)
  {
    if i < |bodies| {
      assert bodies[..i + 1][..i] == bodies[..i];
    } else {
      assert bodies[..i] == bodies;
    }
  }

  /** One more offered body adds its candidate at the end. */
  lemma CandidatesStep(offered: seq<Body>, body: Body, draws: seq<real>, weight: nat -> real, energyFor: (Body, real) --> real)
    requires Priced(offered, energyFor) && (forall draw :: energyFor.requires(body, draw))
    requires |draws| > |offered|
    ensures Priced(offered + [body], energyFor)
    ensures Candidates(offered + [body], draws, weight, energyFor)
         == Candidates(offered, draws, weight, energyFor) + [Candidate(body, |offered|, draws[|offered|], weight, energyFor)]
  {
    assert (offered + [body])[..|offered|] == offered;
  }

  /** The candidates carry the weights, in order. */
  lemma CandidateWeights(offered: seq<Body>, draws: seq<real>, weight: nat -> real, energyFor: (Body, real) --> real)
    requires Priced(offered, energyFor) && |draws| >= |offered|
    ensures Weights(Candidates(offered, draws, weight, energyFor)) == WeightList(|offered|, weight)
  {
    var cs := Candidates(offered, draws, weight, energyFor);
    forall k | 0 <= k < |offered|
      ensures cs[k].probability == weight(k)
    {
      CandidateAt(offered, draws, weight, energyFor, k);
    }
  }

  /** `pickKE` can price every airless body among bodies it can price. */
  lemma AirlessPriced(reached: seq<Body>, stars: real, subjectFor: Body -> ScienceSubject)
    requires Invertible(reached, subjectFor)
    ensures Priced(Airless(reached), EnergyFor(stars, subjectFor))
  {
    var bodies := Airless(reached);
    forall k | 0 <= k < |bodies|
      ensures bodies[k].radius != 0.0 && subjectFor(bodies[k]).scienceCap != 0.0
    {
      assert bodies[k] in reached;
    }
  }

  /**
   * `pickContracts`: one candidate per untargeted body, in order, each with
   * the next draw and the energy `energyFor` (`pickKE`) picks with it.  The
   * source weighs them with `AsWrittenWeight`.
   */
  method PickContracts(bodies: seq<Body>, taken: seq<Body>, draws: seq<real>, weight: nat -> real,
                       energyFor: (Body, real) --> real)
    returns (possible: seq<PossibleContract>)
    requires Priced(bodies, energyFor) && |draws| >= |bodies|
    ensures Priced(Untargeted(bodies, taken), energyFor)
    ensures possible == Candidates(Untargeted(bodies, taken), draws, weight, energyFor)
  {
    possible := [];
    ghost var offered: seq<Body> := [];
    var i := 0;
    while i < |bodies|
      invariant 0 <= i <= |bodies|
      invariant offered == Untargeted(bodies[..i], taken)
      invariant Priced(offered, energyFor) && |offered| <= i
      invariant possible == Candidates(offered, draws, weight, energyFor)
    {
      var body := bodies[i];
      UntargetedStep(bodies, taken, i);
      if body !in taken {
        var k := |possible|;
        CandidatesStep(offered, body, draws, weight, energyFor);
        possible := possible + [Candidate(body, k, draws[k], weight, energyFor)];
        offered := offered + [body];
      }
      i := i + 1;
    }
    UntargetedStep(bodies, taken, i);
  }

  // ---- The weighted pick ----

  function Weights(cs: seq<PossibleContract>): (r: seq<real>)
    ensures |r| == |cs| && forall k :: 0 <= k < |cs| ==> r[k] == cs[k].probability
  {
    seq(|cs|, k requires 0 <= k < |cs| => cs[k].probability)
  }

  predicate Sorted(ws: seq<real>)
  {
    forall i, j :: 0 <= i <= j < |ws| ==> ws[i] <= ws[j]
  }

  predicate StrictlySorted(ws: seq<real>)
  {
    forall i, j :: 0 <= i < j < |ws| ==> ws[i] < ws[j]
  }

  /** The first index whose weight reaches `key`, or the length when none does. */
  function FirstAtLeast(ws: seq<real>, key: real): (r: nat)
    ensures r <= |ws|
    ensures forall j :: 0 <= j < r ==> ws[j] < key
    ensures r < |ws| ==> ws[r] >= key
  {
    if ws == [] then 0
    else if ws[0] >= key then 0
    else 1 + FirstAtLeast(ws[1..], key)
  }

  /**
   * `List.BinarySearch` with the weight comparer: an index holding `key`, or
   * the complement of the index where `key` would be inserted.
   */
  method BinarySearch(cs: seq<PossibleContract>, key: real) returns (r: int)
    requires Sorted(Weights(cs))
    ensures 0 <= r ==> r < |cs| && cs[r].probability == key
    ensures r < 0 ==> -(r + 1) == FirstAtLeast(Weights(cs), key)
    ensures r < 0 ==> forall j :: 0 <= j < |cs| ==> cs[j].probability != key
  {
    var ws := Weights(cs);
    var probe := PossibleContract(key, None, 0.0, None);
    var lo, hi := 0, |cs| - 1;
    while lo <= hi
      invariant 0 <= lo <= hi + 1 <= |cs|
      invariant forall j :: 0 <= j < lo ==> ws[j] < key
      invariant forall j :: hi < j < |cs| ==> ws[j] > key
    {
      var mid := lo + (hi - lo) / 2;
      var order := Compare(cs[mid], probe);
      if order == 0 {
        return mid;
      }
      if order < 0 {
        lo := mid + 1;
      } else {
        hi := mid - 1;
      }
    }
    FirstAtLeastIs(ws, key, lo);
    return -lo - 1;
  }

  /** An index before which every weight is below `key`, and from which every weight is above it, is the first reaching it. */
  lemma {:induction false} FirstAtLeastIs(ws: seq<real>, key: real, i: nat)
    requires i <= |ws|
    requires forall j :: 0 <= j < i ==> ws[j] < key
    requires i < |ws| ==> ws[i] >= key
    ensures FirstAtLeast(ws, key) == i
  {
    if ws != [] && ws[0] < key {
      FirstAtLeastIs(ws[1..], key, i - 1);
    }
  }

  /** In strictly rising weights, a found index is the first reaching the key. */
  lemma FoundIsFirst(ws: seq<real>, key: real, r: nat)
    requires StrictlySorted(ws) && r < |ws| && ws[r] == key
    ensures FirstAtLeast(ws, key) == r
  {
    FirstAtLeastIs(ws, key, r);
  }

  /** For a key below the last weight, the selection is an index of the list. */
  lemma SelectionInBounds(ws: seq<real>, key: real)
    requires |ws| > 0 && key < ws[|ws| - 1]
    ensures FirstAtLeast(ws, key) < |ws|
  {
  }

  /**
   * With cumulative weights 1, 2, ..., n, candidate k is picked exactly when
   * the scaled draw falls in (k, k + 1], and candidate 0 also for 0: every
   * candidate has the same chance.
   */
  lemma CumulativeSelectsBand(n: nat, picked: real, k: nat)
    requires 0.0 <= picked < n as real && k < n
    ensures var ws := WeightList(n, CumulativeWeight);
      FirstAtLeast(ws, picked) == k <==> (k == 0 && picked <= 1.0) || (k as real < picked <= (k + 1) as real)
  {
    var ws := WeightList(n, CumulativeWeight);
    if (k == 0 && picked <= 1.0) || (k as real < picked <= (k + 1) as real) {
      FirstAtLeastIs(ws, picked, k);
    }
    if FirstAtLeast(ws, picked) == k && k > 0 {
      assert ws[k - 1] < picked;
    }
  }

  /**
   * The lookup in `actuallyGenerate`: the binary search for the scaled draw;
   * a miss gives the insertion point.  For rising weights and a draw below
   * the last weight the result is the first weight reaching the draw, an
   * index of the list.
   */
  method WeightedPick(contracts: seq<PossibleContract>, picked: real) returns (index: int)
    requires |contracts| > 0 && StrictlySorted(Weights(contracts))
    requires picked < contracts[|contracts| - 1].probability
    ensures 0 <= index < |contracts|
    ensures index == FirstAtLeast(Weights(contracts), picked)
  {
    var ws := Weights(contracts);
    assert Sorted(ws);
    SelectionInBounds(ws, picked);
    index := BinarySearch(contracts, picked);
    if index < 0 {
      index := -(index + 1);
    } else {
      FoundIsFirst(ws, picked, index);
    }
  }

  /** Cumulative weights rise strictly, and the last is the number of candidates. */
  lemma CumulativeWeightsRise(n: nat)
    requires n > 0
    ensures StrictlySorted(WeightList(n, CumulativeWeight))
    ensures WeightList(n, CumulativeWeight)[n - 1] == n as real
  {
  }

  /**
   * With every weight 1, as `pickContracts` gives them, the total is 1, the
   * scaled draw lies in [0, 1), and the pick selects the first candidate
   * whatever the draw.
   */
  lemma AsWrittenAlwaysFirst(n: nat, picked: real)
    requires n > 0 && 0.0 <= picked < 1.0
    ensures WeightList(n, AsWrittenWeight)[n - 1] == 1.0
    ensures FirstAtLeast(WeightList(n, AsWrittenWeight), picked) == 0
  {
    var ws := WeightList(n, AsWrittenWeight);
    assert ws[0] >= picked;
  }

  /**
   * The pick of `actuallyGenerate` as written: the candidates all weigh 1,
   * the draw is scaled by the last weight, 1, and the binary search's
   * insertion point is taken on a miss.  Whatever the draw, the first
   * candidate is chosen.
   */
  method GenerateAsWritten(bodies: seq<Body>, taken: seq<Body>, draws: seq<real>, draw: real, energyFor: (Body, real) --> real)
    returns (pick: Option<PossibleContract>)
    requires Priced(bodies, energyFor) && |draws| >= |bodies| && 0.0 <= draw < 1.0
    ensures var offered := Untargeted(bodies, taken);
      && Priced(offered, energyFor)
      && (pick.None? <==> offered == [])
      && (pick.Some? ==> pick.value == Candidate(offered[0], 0, draws[0], AsWrittenWeight, energyFor))
  {
    var contracts := PickContracts(bodies, taken, draws, AsWrittenWeight, energyFor);
    if |contracts| == 0 {
      return None;
    }
    ghost var offered := Untargeted(bodies, taken);
    CandidateWeights(offered, draws, AsWrittenWeight, energyFor);
    AsWrittenAlwaysFirst(|contracts|, draw);
    var totalProb := contracts[|contracts| - 1].probability;
    assert totalProb == 1.0;
    var picked := draw * totalProb;
    var contractIndex := BinarySearch(contracts, picked);
    if contractIndex < 0 {
      contractIndex := -(contractIndex + 1);
    } else {
      assert false;
    }
    CandidateAt(offered, draws, AsWrittenWeight, energyFor, contractIndex);
    return Some(contracts[contractIndex]);
  }

  /**
   * Candidates with cumulative weights meet the needs of the weighted pick,
   * and it selects by the weights 1, 2, ..., n.
   */
  lemma CumulativeCandidates(offered: seq<Body>, draws: seq<real>, energyFor: (Body, real) --> real, picked: real)
    requires Priced(offered, energyFor) && |draws| >= |offered| && 0 < |offered| && picked < |offered| as real
    ensures var cs := Candidates(offered, draws, CumulativeWeight, energyFor);
      && StrictlySorted(Weights(cs)) && picked < cs[|cs| - 1].probability
      && FirstAtLeast(Weights(cs), picked) == FirstAtLeast(WeightList(|offered|, CumulativeWeight), picked)
  {
    var cs := Candidates(offered, draws, CumulativeWeight, energyFor);
    CandidateWeights(offered, draws, CumulativeWeight, energyFor);
    CumulativeWeightsRise(|offered|);
    assert cs[|cs| - 1].probability == Weights(cs)[|cs| - 1];
  }

  /**
   * The body of `actuallyGenerate`: the candidates of the untargeted bodies
   * with cumulative weights, and the one the weighted pick selects.
   */
  method Generate(bodies: seq<Body>, taken: seq<Body>, draws: seq<real>, picked: real, energyFor: (Body, real) --> real)
    returns (pick: Option<PossibleContract>)
    requires Priced(bodies, energyFor) && |draws| >= |bodies| && 0.0 <= picked
    requires picked < |Untargeted(bodies, taken)| as real || Untargeted(bodies, taken) == []
    ensures var offered := Untargeted(bodies, taken);
      && Priced(offered, energyFor)
      && (pick.None? <==> offered == [])
      && (pick.Some? ==>
            var k := FirstAtLeast(WeightList(|offered|, CumulativeWeight), picked);
            && k < |offered|
            && pick.value == Candidate(offered[k], k, draws[k], CumulativeWeight, energyFor))
  {
    var contracts := PickContracts(bodies, taken, draws, CumulativeWeight, energyFor);
    if |contracts| == 0 {
      return None;
    }
    ghost var offered := Untargeted(bodies, taken);
    CumulativeCandidates(offered, draws, energyFor, picked);
    var contractIndex := WeightedPick(contracts, picked);
    CandidateAt(offered, draws, CumulativeWeight, energyFor, contractIndex);
    return Some(contracts[contractIndex]);
  }

  // ---- The contract ----

  class ImpactContract {
    var prestige: Prestige
    var pickedContract: Option<PossibleContract>

    constructor (prestige: Prestige)
      ensures this.prestige == prestige && pickedContract == None
    {
      this.prestige := prestige;
      pickedContract := None;
    }

    /**
     * `actuallyGenerate`: no contract when no airless body qualifies;
     * otherwise the candidate the weighted pick selects is kept, its energy
     * picked for this contract's star rating.
     */
    method ActuallyGenerate(reached: seq<Body>, taken: seq<Body>, subjectFor: Body -> ScienceSubject,
                            keDraws: seq<real>, picked: real)
      returns (generated: bool)
      requires Invertible(reached, subjectFor) && |keDraws| >= |reached| && 0.0 <= picked
      requires picked < |Untargeted(Airless(reached), taken)| as real || Untargeted(Airless(reached), taken) == []
      modifies this
      ensures prestige == old(prestige)
      ensures var offered := Untargeted(Airless(reached), taken);
        && (generated <==> |offered| > 0)
        && (!generated ==> pickedContract == old(pickedContract))
        && (generated ==>
              var k := FirstAtLeast(WeightList(|offered|, CumulativeWeight), picked);
              && Priced(offered, EnergyFor(StarRating(prestige) as real, subjectFor))
              && k < |offered|
              && pickedContract == Some(Candidate(offered[k], k, keDraws[k], CumulativeWeight, EnergyFor(StarRating(prestige) as real, subjectFor))))
    {
      var stars := StarRating(prestige) as real;
      AirlessPriced(reached, stars, subjectFor);
      var pick := Generate(Airless(reached), taken, keDraws, picked, EnergyFor(stars, subjectFor));
      if pick.None? {
        return false;
      }
      pickedContract := pick;
      return true;
    }

    /** `OnSave`: the picked contract is saved into a new child node. */
    method OnSave(node: ConfigNode)
      requires pickedContract.Some? && pickedContract.value.body.Some?
      modifies node
      ensures node.nodes == old(node.nodes) + [Node(ValuesNode, SaveValues(map[], pickedContract.value), [])]
      ensures node.values == old(node.values)
    {
      var paramNode := new ConfigNode(ValuesNode);
      Save(pickedContract.value, paramNode);
      node.AddNode(paramNode.Snapshot());
    }

    /** `OnLoad`: the picked contract is read back from the first child of that name, which must exist. */
    method OnLoad(node: Node, bodies: seq<Body>)
      requires FirstNamed(node.nodes, ValuesNode).Some?
      modifies this
      ensures pickedContract == Some(Load(FirstNamed(node.nodes, ValuesNode).value, bodies))
      ensures prestige == old(prestige)
    {
      pickedContract := Some(Load(FirstNamed(node.nodes, ValuesNode).value, bodies));
    }
  }

  /**
   * Saving the picked contract into a node that had no such child, and
   * loading it back, gives the contract again, all but its weight.
   */
  lemma ContractValuesRoundTrip(name: string, values: map<string, Value>, children: seq<Node>, pc: PossibleContract, bodies: seq<Body>)
    requires pc.body.Some? && FindBody(bodies, pc.body.value.name) == pc.body
    requires FirstNamed(children, ValuesNode).None?
    ensures var saved := Node(name, values, children + [Node(ValuesNode, SaveValues(map[], pc), [])]);
      && FirstNamed(saved.nodes, ValuesNode).Some?
      && Load(FirstNamed(saved.nodes, ValuesNode).value, bodies) == pc.(probability := 0.0)
  {
    var child := Node(ValuesNode, SaveValues(map[], pc), []);
    FirstNamedAppend(children, [child], ValuesNode);
    assert FirstNamed([child], ValuesNode) == Some(child);
    SaveLoadRoundTrip(pc, bodies, ValuesNode, []);
  }
}
