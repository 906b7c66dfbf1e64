# Kerbal Impact, modelled in Dafny

Kerbal Impact is a Kerbal Space Program mod that turns crashes into science.
When a craft hits an airless body at 50 m/s or more, the mod sends a record
to every craft around the same body that can observe the impact:

- landed craft feed their seismometer;
- orbiting craft that can see the crash site feed their spectrometer;
- for a hit on an asteroid, orbiting craft within 500 km feed their
  spectrometer.

Each record carries the crash's kinetic energy, or a biome or asteroid name,
and an amount of science. The amount comes from comparing the energy with a
per-body reference crash: a 15 tonne impactor at escape speed. Each
instrument keeps only its best record, both in memory and in the stored node
of a part that is not loaded. Seismic impact contracts ask for a crash of at
least a given energy on a given body. Their energy target is drawn from the
science band that matches the contract's star rating. A contract is picked
from the candidate bodies by a weighted binary search, and two goals listen
for records to complete it.

The project has one Dafny module per concern:

| file | module | what it holds |
|---|---|---|
| options.dfy | Options | `Option`, for the source's `null` |
| host.dfy | Host | vectors, celestial bodies, science subjects (game inputs) |
| config_nodes.dfy | ConfigNodes | the game's configuration node: values and ordered child nodes; `ConfigNode` is changed in place |
| impact_science_data.dfy | ImpactRecords | the impact record, its constructors, `Load` and `Save` |
| stored_results.dfy | StoredResults | how an instrument keeps its record in a part node |
| seismometer.dfy | Seismometers | the seismometer's result store, in memory and in a node |
| spectrometer.dfy | Spectrometers | the spectrometer's result store, in memory and in a node |
| score_translation.dfy | ScoreTranslation | reference crash, science-to-energy and energy-to-science |
| energy_format.dfy | EnergyFormats | the energy label loop (SI suffix selection) |
| impact_monitor.dfy | ImpactMonitor | the three records, and which craft receive them (`OnCrash`, `OnCollide`, `doImpact` and the three observer cases) |
| possible_contracts.dfy | PossibleContracts | a candidate contract, its save/load and its comparer |
| impact_contracts.dfy | ImpactContracts | star ratings, `pickKE`, `pickContracts`, the weighted pick, `actuallyGenerate`, contract save/load |
| contract_parameters.dfy | ContractParameters | the two goals, their tests, and their subscription to the two channels |

Objects whose fields the source updates become classes:

- `ConfigNode`
- the two instruments
- the contract
- the two goals
- the coordinator holding the two handler channels

Loops become methods with invariants, each proved against a specification
function:

- the energy label loop;
- the craft loop of `doImpact`;
- the module search of a stored craft;
- the asteroid search of `OnCollide`;
- the candidate loop of `pickContracts`;
- the binary search.

Random draws, square roots, the game's lists of bodies and vessels, and
science subjects are all parameters.

## Model

| member | source | states |
|---|---|---|
| ConfigNodes.AddValueTo | kerbal-impact/kerbal-impact/Source/ImpactScienceData.cs:49-53 | `AddValue` adds a key with its value; a key already present keeps its first value (what `GetValue` answers); every other key is unchanged |
| ConfigNodes.ReadReal | kerbal-impact/kerbal-impact/Source/ImpactScienceData.cs:36-39 | a numeric value present under the key is read; otherwise the field keeps its previous value |
| ConfigNodes.ReadText | kerbal-impact/kerbal-impact/Source/ImpactScienceData.cs:40-43 | a text value present under the key is read; otherwise the field keeps its previous value |
| ConfigNodes.FirstNamed | kerbal-impact/kerbal-impact/Source/Seismometer.cs:18-20 | `HasNode`/`GetNode`: the answer is a child of that name; there is none exactly when no child has that name |
| ConfigNodes.WithoutNamed | kerbal-impact/kerbal-impact/Source/Seismometer.cs:33 | `RemoveNodes`: exactly the children of other names remain, and none of that name is left |
| ConfigNodes.WithoutNamedAppend | kerbal-impact/kerbal-impact/Source/Seismometer.cs:33 | removing by name distributes over concatenation |
| ConfigNodes.WithoutNamedNoOp | kerbal-impact/kerbal-impact/Source/Seismometer.cs:33 | removing a name that no child has changes nothing |
| ConfigNodes.CountNamedAppend | kerbal-impact/kerbal-impact/Source/Seismometer.cs:36 | counts of named children add up over concatenation |
| ConfigNodes.FirstNamedAppend | kerbal-impact/kerbal-impact/Source/Seismometer.cs:36 | a child appended after children of other names is the first of its name |
| ConfigNodes.CountOneWhenPresent | kerbal-impact/kerbal-impact/Source/Seismometer.cs:45 | a node where `HasNode` is true has at least one child of that name |
| ConfigNodes.ConfigNode.AddValue | kerbal-impact/kerbal-impact/Source/ImpactScienceData.cs:49 | the node's values become `AddValueTo` of the old ones; its children are unchanged |
| ConfigNodes.ConfigNode.AddNode | kerbal-impact/kerbal-impact/Source/Seismometer.cs:36 | the child is appended at the end; the values are unchanged |
| ConfigNodes.ConfigNode.RemoveNodes | kerbal-impact/kerbal-impact/Source/Seismometer.cs:33 | the children become `WithoutNamed` of the old ones; the values are unchanged |
| ImpactRecords.WithEnergy | kerbal-impact/kerbal-impact/Source/ImpactScienceData.cs:22-26 | the energy constructor sets the energy and the base fields and leaves the biome null |
| ImpactRecords.WithBiome | kerbal-impact/kerbal-impact/Source/ImpactScienceData.cs:27-31 | the biome constructor sets the biome and the base fields and leaves the energy 0 |
| ImpactRecords.FromNode | kerbal-impact/kerbal-impact/Source/ImpactScienceData.cs:17-20 | definition, no contract: the node constructor, the base load then `Load`; its round trip is `SaveLoadRoundTrip` |
| ImpactRecords.Load | kerbal-impact/kerbal-impact/Source/ImpactScienceData.cs:33-44 | the energy and the biome are replaced only when the node holds them; absent values leave them as they were |
| ImpactRecords.BaseSave | kerbal-impact/kerbal-impact/Source/ImpactScienceData.cs:48 | the base fields are added to the node's values; its children are unchanged |
| ImpactRecords.Save | kerbal-impact/kerbal-impact/Source/ImpactScienceData.cs:46-54 | the node's values become those of `SaveValues`: base fields, energy always, biome when present |
| ImpactRecords.SaveWritesEnergyAndBiome | kerbal-impact/kerbal-impact/Source/ImpactScienceData.cs:46-54 | saved into an empty node, a record always carries KineticEnergy with its energy, and carries Biome exactly when it has a biome |
| ImpactRecords.BiomeRecordSavesZeroEnergy | kerbal-impact/kerbal-impact/Source/ImpactScienceData.cs:27-49 | a record made by the biome constructor is saved with KineticEnergy 0 |
| ImpactRecords.SaveLoadRoundTrip | kerbal-impact/kerbal-impact/Source/ImpactScienceData.cs:17-54 | building a record from a node written by `Save` gives back the same record, energy and biome included |
| StoredResults.StoredResult | kerbal-impact/kerbal-impact/Source/Seismometer.cs:18-22 | a node holds a record exactly when it has a "ScienceData" child |
| StoredResults.StoreResult | kerbal-impact/kerbal-impact/Source/Seismometer.cs:31-39 | definition, no contract: the node after the static `OnSave`; its properties are `StoreResultCount`, `StoreThenRead` and `StoreResultIdempotent` |
| StoredResults.StoreResultCount | kerbal-impact/kerbal-impact/Source/Seismometer.cs:31-39 | after the static `OnSave` the node has exactly one "ScienceData" child with data and none without; its values are unchanged |
| StoredResults.StoreThenRead | kerbal-impact/kerbal-impact/Source/Seismometer.cs:16-39 | what the static `OnSave` stores is what `OnLoad` reads back |
| StoredResults.StoreResultIdempotent | kerbal-impact/kerbal-impact/Source/Seismometer.cs:33 | saving the same data twice leaves the node as saving it once: no duplicates build up |
| Seismometers.Improves | kerbal-impact/kerbal-impact/Source/Seismometer.cs:69 | definition, no contract: the in-memory rule, strictly greater in both amount and energy |
| Seismometers.Kept | kerbal-impact/kerbal-impact/Source/Seismometer.cs:64-84 | definition, no contract: the result after an offer; see `KeptNeverWorse` |
| Seismometers.StoredWins | kerbal-impact/kerbal-impact/Source/Seismometer.cs:50 | definition, no contract: the node rule, the stored record stays when the new one is lower in amount or in energy |
| Seismometers.NewResultNode | kerbal-impact/kerbal-impact/Source/Seismometer.cs:42-56 | definition, no contract: the node after `NewResult`; see `NewResultKeepsOneRecord`, `NewResultIdempotent` and `TieRulesDiffer` |
| Seismometers.Seismometer.OnLoad | kerbal-impact/kerbal-impact/Source/Seismometer.cs:16-24 | the stored record replaces the result when the node has one; otherwise the result is untouched |
| Seismometers.Seismometer.OnSave | kerbal-impact/kerbal-impact/Source/Seismometer.cs:26-29 | the node becomes `StoreResult` of the old node with the current result |
| Seismometers.Seismometer.SaveResult | kerbal-impact/kerbal-impact/Source/Seismometer.cs:31-39 | the static `OnSave`: the node becomes `StoreResult` of the old node with the data |
| Seismometers.Seismometer.NewResult | kerbal-impact/kerbal-impact/Source/Seismometer.cs:42-56 | the node becomes `NewResultNode`: it is kept when its stored record has more science or more energy, and rewritten with the new record otherwise |
| Seismometers.Seismometer.ReturnData | kerbal-impact/kerbal-impact/Source/Seismometer.cs:64-75 | nothing happens for null data; otherwise the result becomes `Kept`: the new record when there is none or it is strictly better in both amount and energy |
| Seismometers.Seismometer.AddExperiment | kerbal-impact/kerbal-impact/Source/Seismometer.cs:77-84 | the result becomes `Kept`: the new record when there is none or it is strictly better in both amount and energy |
| Seismometers.Seismometer.GetScienceCount | kerbal-impact/kerbal-impact/Source/Seismometer.cs:91-94 | 1 exactly when there is a result, 0 exactly when there is none |
| Seismometers.Seismometer.GetData | kerbal-impact/kerbal-impact/Source/Seismometer.cs:113-119 | a list as long as the science count, holding the result and nothing else |
| Seismometers.Seismometer.GetImpactData | kerbal-impact/kerbal-impact/Source/Seismometer.cs:121-127 | a list as long as the science count, holding the result and nothing else |
| Seismometers.Seismometer.DumpData | kerbal-impact/kerbal-impact/Source/Seismometer.cs:129-133 | the result is cleared |
| Seismometers.Seismometer.KeepData | kerbal-impact/kerbal-impact/Source/Seismometer.cs:135-138 | the result is unchanged |
| Seismometers.KeptNeverWorse | kerbal-impact/kerbal-impact/Source/Seismometer.cs:77-84 | after an offer there is a result, and it is no worse in amount or energy than the one held before |
| Seismometers.MoreScienceLessEnergyKeepsStored | kerbal-impact/kerbal-impact/Source/Seismometer.cs:42-84 | a record with more science but less energy is refused both in memory and in a node |
| Seismometers.BetterInBothReplaces | kerbal-impact/kerbal-impact/Source/Seismometer.cs:42-84 | a record better in both amount and energy replaces the kept one both in memory and in a node |
| Seismometers.TieRulesDiffer | kerbal-impact/kerbal-impact/Source/Seismometer.cs:42-84 | on a tie in both amount and energy the memory rule keeps the old record, while the node rule stores the new one |
| Seismometers.NewResultKeepsOneRecord | kerbal-impact/kerbal-impact/Source/Seismometer.cs:42-56 | from a node with at most one record, `NewResult` leaves exactly one: the stored one if it wins, the new one otherwise |
| Seismometers.NewResultIdempotent | kerbal-impact/kerbal-impact/Source/Seismometer.cs:42-56 | offering the same record twice leaves the node as offering it once |
| Spectrometers.Improves | kerbal-impact/kerbal-impact/Source/Spectrometer.cs:70 | definition, no contract: the in-memory rule, strictly greater amount |
| Spectrometers.Kept | kerbal-impact/kerbal-impact/Source/Spectrometer.cs:65-86 | definition, no contract: the result after an offer; see `KeptNeverWorse` |
| Spectrometers.StoredWins | kerbal-impact/kerbal-impact/Source/Spectrometer.cs:50 | definition, no contract: the node rule, the new record is dropped when its amount is not greater |
| Spectrometers.NewResultNode | kerbal-impact/kerbal-impact/Source/Spectrometer.cs:43-57 | definition, no contract: the node after `NewResult`; see `NodeRuleMatchesMemoryRule` |
| Spectrometers.Spectrometer.OnLoad | kerbal-impact/kerbal-impact/Source/Spectrometer.cs:17-25 | the stored record replaces the result when the node has one; otherwise the result is untouched |
| Spectrometers.Spectrometer.OnSave | kerbal-impact/kerbal-impact/Source/Spectrometer.cs:27-30 | the node becomes `StoreResult` of the old node with the current result |
| Spectrometers.Spectrometer.SaveResult | kerbal-impact/kerbal-impact/Source/Spectrometer.cs:32-40 | the static `OnSave`: the node becomes `StoreResult` of the old node with the data |
| Spectrometers.Spectrometer.NewResult | kerbal-impact/kerbal-impact/Source/Spectrometer.cs:43-57 | the node becomes `NewResultNode`: it is kept when the new amount is not greater than the stored one, and rewritten otherwise |
| Spectrometers.Spectrometer.ReturnData | kerbal-impact/kerbal-impact/Source/Spectrometer.cs:65-76 | nothing happens for null data; otherwise the new record is kept when there is none or its amount is strictly greater |
| Spectrometers.Spectrometer.AddExperiment | kerbal-impact/kerbal-impact/Source/Spectrometer.cs:78-86 | the new record is kept when there is none or its amount is strictly greater |
| Spectrometers.Spectrometer.GetScienceCount | kerbal-impact/kerbal-impact/Source/Spectrometer.cs:93-96 | 1 exactly when there is a result, 0 exactly when there is none |
| Spectrometers.Spectrometer.GetData | kerbal-impact/kerbal-impact/Source/Spectrometer.cs:114-120 | a list as long as the science count, holding the result and nothing else |
| Spectrometers.Spectrometer.GetImpactData | kerbal-impact/kerbal-impact/Source/Spectrometer.cs:122-128 | a list as long as the science count, holding the result and nothing else |
| Spectrometers.Spectrometer.DumpData | kerbal-impact/kerbal-impact/Source/Spectrometer.cs:130-134 | the result is cleared |
| Spectrometers.Spectrometer.KeepData | kerbal-impact/kerbal-impact/Source/Spectrometer.cs:136-139 | the result is unchanged |
| Spectrometers.KeptNeverWorse | kerbal-impact/kerbal-impact/Source/Spectrometer.cs:78-86 | after an offer there is a result, and it never has less science than the one held before |
| Spectrometers.NodeRuleMatchesMemoryRule | kerbal-impact/kerbal-impact/Source/Spectrometer.cs:43-86 | a node rewritten by `NewResult` holds exactly what the memory rule would keep |
| Spectrometers.NewResultKeepsOneRecord | kerbal-impact/kerbal-impact/Source/Spectrometer.cs:43-57 | from a node with at most one record, `NewResult` leaves exactly one: the stored one if it wins, the new one otherwise |
| Spectrometers.NewResultIdempotent | kerbal-impact/kerbal-impact/Source/Spectrometer.cs:43-57 | offering the same record twice leaves the node as offering it once |
| ScoreTranslation.ReferenceCrash | kerbal-impact/kerbal-impact/Source/ImpactMonitor.cs:389-396 | definition, no contract: 15e3 mu / R; see `ReferenceIsEscapeImpact` and `ReferenceCrashPositive` |
| ScoreTranslation.ScienceToKE | kerbal-impact/kerbal-impact/Source/ImpactMonitor.cs:370-379 | definition, no contract: (science / cap)^2 times the reference energy; see `ScienceToKEMonotone`, `ScienceToKEAtCap` and the round trips |
| ScoreTranslation.KEToScience | kerbal-impact/kerbal-impact/Source/ImpactMonitor.cs:381-387 | definition, no contract: min(sqrt(energy / reference), 1) times the cap; see `KEToScienceBounds`, `KEToScienceMonotone`, `KEToScienceSaturates` and the round trips |
| ScoreTranslation.ReferenceIsEscapeImpact | kerbal-impact/kerbal-impact/Source/ImpactMonitor.cs:389-396 | the reference energy 15e3 mu / R is the kinetic energy of 15 t at escape speed |
| ScoreTranslation.ReferenceCrashPositive | kerbal-impact/kerbal-impact/Source/ImpactMonitor.cs:389-396 | the reference energy is positive for every body with positive mass and radius |
| ScoreTranslation.ReferenceCrashScales | kerbal-impact/kerbal-impact/Source/ImpactMonitor.cs:389-396 | for every body, scaling the gravitational parameter by k scales the reference energy by k, and scaling the radius by k divides it by k |
| ScoreTranslation.ScienceToKEMonotone | kerbal-impact/kerbal-impact/Source/ImpactMonitor.cs:370-379 | the energy asked for never falls as the science asked for grows from 0 |
| ScoreTranslation.ScienceToKEAtCap | kerbal-impact/kerbal-impact/Source/ImpactMonitor.cs:370-379 | the whole cap asks for exactly the reference energy |
| ScoreTranslation.KEToScienceBounds | kerbal-impact/kerbal-impact/Source/ImpactMonitor.cs:381-387 | for a non-negative energy the science lies in [0, cap] |
| ScoreTranslation.KEToScienceMonotone | kerbal-impact/kerbal-impact/Source/ImpactMonitor.cs:381-387 | more energy never earns less science |
| ScoreTranslation.ScienceRoundTrip | kerbal-impact/kerbal-impact/Source/ImpactMonitor.cs:370-387 | for science in [0, cap], translating to energy and back gives the science again |
| ScoreTranslation.EnergyRoundTrip | kerbal-impact/kerbal-impact/Source/ImpactMonitor.cs:370-387 | for energy in [0, reference], translating to science and back gives the energy again |
| ScoreTranslation.KEToScienceSaturates | kerbal-impact/kerbal-impact/Source/ImpactMonitor.cs:381-387 | from the reference energy on, the science is the whole cap |
| EnergyFormats.Pow1000Suffixes | kerbal-impact/kerbal-impact/Source/ImpactMonitor.cs:398-408 | running out of suffixes happens at 1000^6 = 1e18 J |
| EnergyFormats.Scale | kerbal-impact/kerbal-impact/Source/ImpactMonitor.cs:401-408 | the loop keeps figures x 1000^index equal to the energy, stops within the limit, and below the limit leaves figures under 1000 (and at least 1 once it has divided) |
| EnergyFormats.EnergyFormatAsWritten | kerbal-impact/kerbal-impact/Source/ImpactMonitor.cs:398-417 | the label read fails exactly when the energy is at least 1e18; otherwise the label shows the energy with a suffix that exists |
| EnergyFormats.EnergyFormat | kerbal-impact/kerbal-impact/Source/ImpactMonitor.cs:398-417 | corrected: every energy gets a label showing it with an existing suffix, with 1 to 1000 figures between 1 J and 1e18 J |
| ImpactMonitor.SeismicData | kerbal-impact/kerbal-impact/Source/ImpactMonitor.cs:277-308 | the seismic record carries the crash energy 0.5 x 1000 m x v^2, the seismic subject and no biome |
| ImpactMonitor.SpectralData | kerbal-impact/kerbal-impact/Source/ImpactMonitor.cs:310-339 | the spectral record carries the biome, energy 0 and the low-space subject |
| ImpactMonitor.AsteroidData | kerbal-impact/kerbal-impact/Source/ImpactMonitor.cs:341-368 | the asteroid record carries the asteroid's name, energy 0 and the asteroid subject |
| ImpactMonitor.SeismicFloor | kerbal-impact/kerbal-impact/Source/ImpactMonitor.cs:291-299 | the seismic amount is never below 0.01, divided by the subject value and scaled |
| ImpactMonitor.SeismicMonotone | kerbal-impact/kerbal-impact/Source/ImpactMonitor.cs:279-299 | a crash with more energy never yields a smaller seismic record |
| ImpactMonitor.SeismicSaturates | kerbal-impact/kerbal-impact/Source/ImpactMonitor.cs:287-299 | from the reference energy on, the seismic record holds what is left of the cap (at least 0.01) |
| ImpactMonitor.SpectralRemaining | kerbal-impact/kerbal-impact/Source/ImpactMonitor.cs:322-331 | the spectral amount is never negative, is the cap less the banked science below the cap, and is 0 once the cap is banked |
| ImpactMonitor.AsteroidIgnoresBanked | kerbal-impact/kerbal-impact/Source/ImpactMonitor.cs:352-360 | the asteroid record does not depend on the science already banked |
| ImpactMonitor.Visible | kerbal-impact/kerbal-impact/Source/ImpactMonitor.cs:229-239 | definition, no contract: the sight test, with the angle below 90 degrees as a positive dot product |
| ImpactMonitor.InRange | kerbal-impact/kerbal-impact/Source/ImpactMonitor.cs:181-185 | definition, no contract: the craft lies within 500 km of the crash |
| ImpactMonitor.RoleOf | kerbal-impact/kerbal-impact/Source/ImpactMonitor.cs:116-140 | only craft around the crash body take part; nothing on an atmospheric body without an asteroid; seismic exactly for landed craft without an asteroid on an airless body; spectral exactly for orbiting craft in sight of the crash on an airless body without an asteroid; asteroid spectral exactly for orbiting craft within 500 km |
| ImpactMonitor.DeliveryOf | kerbal-impact/kerbal-impact/Source/ImpactMonitor.cs:121-139 | definition, no contract: the first instrument of the kind the craft's role calls for; none for a bystander |
| ImpactMonitor.Fired | kerbal-impact/kerbal-impact/Source/ImpactMonitor.cs:121-139 | definition, no contract: the records fired, in craft order; see `FiredComesFromObservers`, `FiredSkipsBystanders` and `AtmosphereSilences` |
| ImpactMonitor.FindModule | kerbal-impact/kerbal-impact/Source/ImpactMonitor.cs:158-172 | the part-then-module search returns the first module of that name (`FirstModule`) |
| ImpactMonitor.Deliver | kerbal-impact/kerbal-impact/Source/ImpactMonitor.cs:145-172 | the record is fired exactly when the craft has an instrument of the kind, and only the first such instrument applies its rule to it |
| ImpactMonitor.LandedVessel | kerbal-impact/kerbal-impact/Source/ImpactMonitor.cs:142-174 | the seismic record is fired and offered to the first seismometer exactly when the craft has one |
| ImpactMonitor.OrbitingVessel | kerbal-impact/kerbal-impact/Source/ImpactMonitor.cs:223-275 | the spectral record is fired and offered to the first spectrometer exactly when the crash is in sight and the craft has one |
| ImpactMonitor.NearAsteroidVessel | kerbal-impact/kerbal-impact/Source/ImpactMonitor.cs:176-221 | the asteroid record is fired and offered to the first spectrometer exactly when the craft is within 500 km and has one |
| ImpactMonitor.Observe | kerbal-impact/kerbal-impact/Source/ImpactMonitor.cs:121-139 | one pass of the craft loop fires the record of the craft's role exactly when it has a matching instrument, and delivers it there |
| ImpactMonitor.ObserveAt | kerbal-impact/kerbal-impact/Source/ImpactMonitor.cs:121-139 | one pass delivers to the i-th craft and leaves every other craft's instrument untouched |
| ImpactMonitor.AtmosphereSilences | kerbal-impact/kerbal-impact/Source/ImpactMonitor.cs:117-118 | an atmospheric body without an asteroid fires nothing and touches no instrument |
| ImpactMonitor.DoImpact | kerbal-impact/kerbal-impact/Source/ImpactMonitor.cs:116-140 | the records fired are those of the participating craft, in list order, and every craft's first instrument holds what its rule makes of its record |
| ImpactMonitor.FiredComesFromObservers | kerbal-impact/kerbal-impact/Source/ImpactMonitor.cs:121-139 | no more records are fired than there are craft, and each is the record of a craft that takes part and has an instrument |
| ImpactMonitor.FiredSkipsBystanders | kerbal-impact/kerbal-impact/Source/ImpactMonitor.cs:121-139 | craft that take no part add nothing to what is fired |
| ImpactMonitor.FirstSpaceObject | kerbal-impact/kerbal-impact/Source/ImpactMonitor.cs:101-109 | the asteroid found is a space object of that name, and none is found exactly when there is none |
| ImpactMonitor.OnCrash | kerbal-impact/kerbal-impact/Source/ImpactMonitor.cs:87-94 | below 50 m/s nothing is fired or delivered; otherwise the impact is handled as `doImpact` without an asteroid |
| ImpactMonitor.OnCollide | kerbal-impact/kerbal-impact/Source/ImpactMonitor.cs:96-114 | below 50 m/s, or against something that is neither the surface nor a space object, nothing happens; otherwise `doImpact` runs with the first space object of that name |
| PossibleContracts.FindBody | kerbal-impact/kerbal-impact/Source/ImpactContract.cs:115 | the body found has that name and is one of the listed bodies; none is found exactly when no listed body has that name |
| PossibleContracts.Load | kerbal-impact/kerbal-impact/Source/ImpactContract.cs:110-122 | weight 0; the energy and the biome are read when the node holds them and default to 0 and none otherwise; the body is the listed body of the saved name (`Find`), none when the name is missing or unknown |
| PossibleContracts.Save | kerbal-impact/kerbal-impact/Source/ImpactContract.cs:124-135 | the node's values become `SaveValues`: the body name, the energy unless 0, the biome when present |
| PossibleContracts.SavedKeys | kerbal-impact/kerbal-impact/Source/ImpactContract.cs:124-135 | BodyName is always written, Energy exactly when it is non-zero, Biome exactly when there is one, and nothing else |
| PossibleContracts.SaveLoadRoundTrip | kerbal-impact/kerbal-impact/Source/ImpactContract.cs:110-135 | saving and loading gives back body, energy and biome; the weight is not kept |
| PossibleContracts.Compare | kerbal-impact/kerbal-impact/Source/ImpactContract.cs:137-143 | negative, zero or positive exactly as the first weight is below, equal to or above the second |
| PossibleContracts.CompareAntisymmetric | kerbal-impact/kerbal-impact/Source/ImpactContract.cs:137-143 | swapping the arguments negates the comparison |
| ImpactContracts.StarRatingsRise | kerbal-impact/kerbal-impact/Source/ImpactContract.cs:19-20 | Trivial, Significant and Exceptional rate 1, 2 and 3 stars, rising |
| ImpactContracts.StarRating | kerbal-impact/kerbal-impact/Source/ImpactContract.cs:19-20 | definition, no contract: the `starRatings` table; see `StarRatingsRise` |
| ImpactContracts.GoalScience | kerbal-impact/kerbal-impact/Source/ImpactContract.cs:187-190 | definition, no contract: the point `draw` of the way through the star band; see `GoalInBand` |
| ImpactContracts.GoalInBand | kerbal-impact/kerbal-impact/Source/ImpactContract.cs:187-190 | for a draw in [0, 1), the goal science lies in [(stars-1)/3 cap, stars/3 cap) |
| ImpactContracts.BandWithinCap | kerbal-impact/kerbal-impact/Source/ImpactContract.cs:187-188 | for one to three stars the band lies within [0, cap] |
| ImpactContracts.PickKE | kerbal-impact/kerbal-impact/Source/ImpactContract.cs:183-193 | definition, no contract: the energy for the goal science; see `PickKEEarnsGoal` |
| ImpactContracts.PickKEEarnsGoal | kerbal-impact/kerbal-impact/Source/ImpactContract.cs:183-193 | the picked energy earns exactly the goal science and lies between the energies of the band's ends |
| ImpactContracts.Airless | kerbal-impact/kerbal-impact/Source/ImpactContract.cs:33-34 | exactly the reached bodies without atmosphere remain |
| ImpactContracts.Untargeted | kerbal-impact/kerbal-impact/Source/ImpactContract.cs:166-169 | no more bodies than listed; which bodies remain is stated by `UntargetedMembers` |
| ImpactContracts.UntargetedMembers | kerbal-impact/kerbal-impact/Source/ImpactContract.cs:166-169 | a body is offered exactly when it is listed and no current seismic contract targets it |
| ImpactContracts.UntargetedDistinct | kerbal-impact/kerbal-impact/Source/ImpactContract.cs:166-169 | when each body is listed once, no body gets two candidates |
| ImpactContracts.WeightList | kerbal-impact/kerbal-impact/Source/ImpactContract.cs:178 | the n weights are the weight function at 0 .. n-1 |
| ImpactContracts.Candidates | kerbal-impact/kerbal-impact/Source/ImpactContract.cs:163-181 | one candidate per offered body |
| ImpactContracts.CandidateAt | kerbal-impact/kerbal-impact/Source/ImpactContract.cs:176-178 | candidate k is the k-th offered body with the k-th weight and the energy picked with the k-th draw |
| ImpactContracts.CandidateWeights | kerbal-impact/kerbal-impact/Source/ImpactContract.cs:178 | the candidates' weights are the weight list, in order |
| ImpactContracts.PickContracts | kerbal-impact/kerbal-impact/Source/ImpactContract.cs:163-181 | the loop returns exactly the candidates of the untargeted bodies, in order |
| ImpactContracts.Weights | kerbal-impact/kerbal-impact/Source/ImpactContract.cs:137-143 | the weights the comparer orders by, candidate by candidate |
| ImpactContracts.FirstAtLeast | kerbal-impact/kerbal-impact/Source/ImpactContract.cs:41-42 | the first index whose weight reaches the key: every earlier weight is below it |
| ImpactContracts.BinarySearch | kerbal-impact/kerbal-impact/Source/ImpactContract.cs:41 | `List.BinarySearch` over sorted weights: a hit holds the key; a miss is the complement of the first index reaching the key, and no weight equals it |
| ImpactContracts.FoundIsFirst | kerbal-impact/kerbal-impact/Source/ImpactContract.cs:41-42 | in strictly rising weights a hit is the first index reaching the key |
| ImpactContracts.SelectionInBounds | kerbal-impact/kerbal-impact/Source/ImpactContract.cs:38-43 | a key below the last weight selects an index of the list |
| ImpactContracts.WeightedPick | kerbal-impact/kerbal-impact/Source/ImpactContract.cs:38-43 | search, then complement on a miss: for strictly rising weights and a draw below the last weight (the total), an index in [0, count) that is the first whose weight reaches the draw |
| ImpactContracts.CumulativeSelectsBand | kerbal-impact/kerbal-impact/Source/ImpactContract.cs:38-43 | with cumulative weights, candidate k is picked exactly when the scaled draw lies in (k, k+1] (or [0, 1] for k = 0): equal chances |
| ImpactContracts.CumulativeWeightsRise | kerbal-impact/kerbal-impact/Source/ImpactContract.cs:38 | cumulative weights rise strictly and total the number of candidates |
| ImpactContracts.AsWrittenAlwaysFirst | kerbal-impact/kerbal-impact/Source/ImpactContract.cs:178 | with every weight 1 the total is 1, and any draw in [0, 1) selects the first candidate |
| ImpactContracts.GenerateAsWritten | kerbal-impact/kerbal-impact/Source/ImpactContract.cs:36-43 | the pick as written: nothing when no body is offered, otherwise always the first offered body's candidate |
| ImpactContracts.CumulativeCandidates | kerbal-impact/kerbal-impact/Source/ImpactContract.cs:38-43 | candidates with cumulative weights meet the weighted pick's needs, and it selects by the weights 1 .. n |
| ImpactContracts.Generate | kerbal-impact/kerbal-impact/Source/ImpactContract.cs:33-43 | no pick exactly when no body is offered; otherwise the candidate of the offered body the cumulative pick selects |
| ImpactContracts.ImpactContract.ActuallyGenerate | kerbal-impact/kerbal-impact/Source/ImpactContract.cs:32-57 | returns false and leaves the picked contract alone exactly when no airless untargeted body is reached; otherwise keeps the selected candidate, priced for the contract's stars |
| ImpactContracts.ImpactContract.OnSave | kerbal-impact/kerbal-impact/Source/ImpactContract.cs:88-94 | a "ContractValues" child holding the saved contract is appended; the values are unchanged |
| ImpactContracts.ImpactContract.OnLoad | kerbal-impact/kerbal-impact/Source/ImpactContract.cs:81-86 | the picked contract is loaded from the first "ContractValues" child |
| ImpactContracts.ContractValuesRoundTrip | kerbal-impact/kerbal-impact/Source/ImpactContract.cs:81-94 | loading a node saved by `OnSave` gives the picked contract back, all but its weight |
| ContractParameters.Removed | kerbal-impact/kerbal-impact/Source/ImpactContract.cs:290 | removing a handler drops it and keeps every other handler |
| ContractParameters.RemovedAppend | kerbal-impact/kerbal-impact/Source/ImpactContract.cs:290 | removing a handler works piece by piece over a concatenation, so the other handlers keep their order |
| ContractParameters.AddThenRemove | kerbal-impact/kerbal-impact/Source/ImpactContract.cs:280-291 | adding a new handler and removing it restores the channel |
| ContractParameters.ImpactParameter.OnRegister | kerbal-impact/kerbal-impact/Source/ImpactContract.cs:280-285 | the bang handler is appended to the bang channel; the science channel is unchanged |
| ContractParameters.ImpactParameter.OnUnregister | kerbal-impact/kerbal-impact/Source/ImpactContract.cs:287-291 | the bang handler is removed from the bang channel; the science channel is unchanged |
| ContractParameters.ImpactParameter.OnBang | kerbal-impact/kerbal-impact/Source/ImpactContract.cs:293-309 | the goal completes exactly when the record has at least the energy and its subject is from the contract's body; otherwise nothing changes |
| ContractParameters.ImpactParameter.OnLoad | kerbal-impact/kerbal-impact/Source/ImpactContract.cs:311-315 | the goal's contract is loaded from the node |
| ContractParameters.ImpactParameter.OnSave | kerbal-impact/kerbal-impact/Source/ImpactContract.cs:317-321 | the goal's contract is saved into the node |
| ContractParameters.ScienceReceiptParameter.OnRegister | kerbal-impact/kerbal-impact/Source/ImpactContract.cs:349-354 | the science handler is appended to the science channel; the bang channel is unchanged |
| ContractParameters.ScienceReceiptParameter.OnUnregisterAsWritten | kerbal-impact/kerbal-impact/Source/ImpactContract.cs:356-360 | as written: the handler is removed from the bang channel, and the science channel is unchanged |
| ContractParameters.ScienceReceiptParameter.OnUnregister | kerbal-impact/kerbal-impact/Source/ImpactContract.cs:356-360 | corrected: the handler is removed from the science channel |
| ContractParameters.ScienceReceiptParameter.OnScience | kerbal-impact/kerbal-impact/Source/ImpactContract.cs:362-378 | the goal completes exactly when the record has at least the energy and its subject is from the contract's body; otherwise nothing changes |
| ContractParameters.ScienceReceiptParameter.OnLoad | kerbal-impact/kerbal-impact/Source/ImpactContract.cs:380-384 | the goal's contract is loaded from the node |
| ContractParameters.ScienceReceiptParameter.OnSave | kerbal-impact/kerbal-impact/Source/ImpactContract.cs:386-390 | the goal's contract is saved into the node |
| ContractParameters.BiomeNeverDecides | kerbal-impact/kerbal-impact/Source/ImpactContract.cs:297-308 | the record's biome never changes whether a goal is met |
| ContractParameters.ImpactGoalLifecycle | kerbal-impact/kerbal-impact/Source/ImpactContract.cs:280-291 | registering and unregistering an impact goal leaves both channels as they were |
| ContractParameters.ReceiptGoalLifecycleAsWritten | kerbal-impact/kerbal-impact/Source/ImpactContract.cs:349-360 | as written, a receipt goal that registers and unregisters stays on the science channel |
| ContractParameters.ReceiptGoalLifecycle | kerbal-impact/kerbal-impact/Source/ImpactContract.cs:349-360 | corrected, registering and unregistering a receipt goal leaves both channels as they were |

## Left out

- The game's plumbing is not modelled:
  - `Start`/`Stop` event registration, `Log` and `listBiomes`;
  - `OnVesselRecovered` and `scienceToKSC`;
  - screen messages, localised texts, result dialogs, `OnUpdate`, `ReviewData` and `TransmitData`.
- ImpactCoordinator.cs is not part of this model. Its two channels are a `Coordinator` class holding handler lists. Firing a channel is not modelled: `doImpact` returns the records it fires, in order. `EventData.Remove` is game library code; `Removed` takes it to drop every registration of the handler, which no lemma relies on, since each lifecycle lemma starts from a channel without the handler.
- KerbalImpact.cs is not part of this model; it holds no logic.
- Floating point is not modelled: `real` replaces `float` and `double`, and the `(float)` casts and their rounding are left out.
  - Square roots are a parameter `sqrt`, which the lemmas assume to be a square root.
  - Speed and range tests compare squared lengths (v² ≥ 2500, d² < 2.5e11).
  - `Vector3d.Angle(a, b) < 90` is the dot product test `a · b > 0`.
- `String.Format` and the digit patterns are not rendered. `EnergyFormats.EnergyFormat` returns the figures, the pattern it would use and the suffix.
- Game services are inputs:
  - `ResearchAndDevelopment` subjects (`Subjects`, `subjectFor`);
  - `FlightGlobals` vessels and bodies;
  - `GetBodies_Reached`, and the bodies current seismic contracts target (`taken`);
  - `IsFromBody` and `IsFromSituation` (`SubjectFacts`).
- `System.Random` draws are inputs:
  - `keDraws` are the draws of `pickKE`, one per candidate in order;
  - `picked` is the selection draw already scaled by the total weight (`NextDouble() * totalProb`).
- ImpactContracts.ImpactContract.ActuallyGenerate: requires the scaled draw to lie below the total weight, as `NextDouble() * totalProb` always does. Its model of `pickContracts` uses cumulative weights (see Findings).
- The latitude, flight ID, title and data-name fields of records are left out. Apart from the label failure below, building them changes no outcome.
- ImpactMonitor.SeismicData: the seismic record is built as if `energyFormat` were corrected. In the source, `createSeismicData` formats the crash energy for the record's title and the screen message, and that call throws for crashes of 1e18 J or more (see Findings).
- ImpactMonitor.LandedVessel: for crashes of 1e18 J or more the source throws before firing the record or offering it to a seismometer; the model fires and delivers it.
- ImpactMonitor.DoImpact: for crashes of 1e18 J or more the source's exception ends the craft loop at the first landed craft with a seismometer, so later craft receive nothing; the model delivers to every participating craft. Observe, ObserveAt, OnCrash and OnCollide inherit this.
- Rewards, deadlines, expiry, `generateParameters`, `getHashString`, titles and descriptions are left out.
- The commented-out `SpectrumContract` is not modelled.
- ImpactScienceData.cs as shown has only the two constructors modelled here. ImpactMonitor.cs calls constructors with a data-type tag, latitude and flight ID, and the instruments call `SaveImpact`; none of these appear in that file. The model builds records with the energy and biome constructors and saves them with `Save`.
- ConfigNodes: a value of the wrong kind is treated as absent. Text where a number is read (KineticEnergy, Energy and the base fields) would make `float.Parse` or `Double.Parse` throw; a number where text is read (Biome, BodyName, subjectID) would be read as its printed digits. Neither is modelled.
- ContractParameters.FromBody: a goal whose contract has no body (its saved body name was not found) is never met. The source passes `null` to `IsFromBody`, which is game code outside this model.
- Seismometers.Seismometer.ReturnData and Spectrometers.Spectrometer.ReturnData: take an impact record, where the source takes any science data and casts it with `as ImpactScienceData`; data of another type is not modelled.
- Errors are excluded by preconditions instead of modelled as results:
  - Division by zero: bodies have positive radius and `gravParameter`, and subjects have positive cap and subject value (`Physical`, `Sound`, `Invertible`). The game's bodies and subjects always do; C# would produce infinities.
  - ImpactContracts.ImpactContract.OnLoad: requires a "ContractValues" child; without one, the source dereferences null.
  - PossibleContracts.Save: requires a body; without one, the source dereferences null.
  - ImpactContracts.ImpactContract.OnSave, ContractParameters.ImpactParameter.OnSave and ContractParameters.ScienceReceiptParameter.OnSave: require a picked contract with a body, for the same reason.
- ImpactMonitor.DoImpact: requires that no two craft share an instrument object, as parts belong to one craft.
- ImpactMonitor: a loaded craft's instrument lists stand for `FindPartModulesImplementing`; the first element is the instrument the source uses.

## Findings

| source | as written | input that shows it | evidently intended | confidence | as-written member | corrected member |
|---|---|---|---|---|---|---|
| kerbal-impact/kerbal-impact/Source/ImpactMonitor.cs:404 | the loop runs while `suffixIndex < suffixes.Count()`, so it can stop at index 6, past the last of the six suffixes | crashEnergy = 1e18 J: after six divisions the figures are 1 and the index is 6, so `suffixes[6]` is read | stop dividing at the last suffix (`suffixIndex < suffixes.Count() - 1`), so energies of 1e18 J and more are shown in PJ | high (not executed) | EnergyFormats.EnergyFormatAsWritten | EnergyFormats.EnergyFormat |
| kerbal-impact/kerbal-impact/Source/ImpactContract.cs:178 | every candidate gets probability 1, so the total is 1, the scaled draw is below 1, and the binary search always misses with insertion point 0 | two untargeted airless bodies and any draw in [0, 1): the first body's candidate is picked | cumulative weights 1, 2, ..., n, so each candidate is picked with equal chance | medium (not executed) | ImpactContracts.GenerateAsWritten | ImpactContracts.CumulativeSelectsBand |
| kerbal-impact/kerbal-impact/Source/ImpactContract.cs:359 | `ScienceReceiptParameter.OnUnregister` removes its handler from `bangListeners`, but `OnRegister` added it to `scienceListeners` | register, then unregister, a receipt goal: its handler is still on the science channel | remove the handler from `scienceListeners` | high (not executed) | ContractParameters.ReceiptGoalLifecycleAsWritten | ContractParameters.ReceiptGoalLifecycle |
