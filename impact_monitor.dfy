/**
 * The impact monitor: what a crash is worth and which observing craft hear
 * of it.  A crash of fast enough craft on an airless body is reported to
 * every craft around the same body that is landed (to its seismometer) or
 * orbiting in sight of the crash (to its spectrometer); a crash into an
 * asteroid is reported to orbiting craft within 500 km.  Each craft feeds
 * only its first instrument of the right kind, and every record made is
 * fired on the bang channel.  Vessels, bodies and subjects are inputs; the
 * game's list of vessels is the sequence `vessels`.
 */
module ImpactMonitor {
  import opened Options
  import opened Host
  import opened ScoreTranslation
  import opened ConfigNodes
  import opened ImpactRecords
  import Seismometers
  import Spectrometers

  datatype Situation = Landed | Splashed | Prelaunch | Flying | SubOrbital | Orbiting | Escaping | Docked

  /** A stored part module of a craft that is not loaded: its module name and its saved values. */
  datatype ModuleSnapshot = ModuleSnapshot(moduleName: string, moduleValues: ConfigNode)

  datatype PartSnapshot = PartSnapshot(modules: seq<ModuleSnapshot>)

  /**
   * A craft.  A loaded craft offers its instrument modules directly; a craft
   * that is not loaded offers only the stored parts.
   */
  datatype Vessel = Vessel(
    name: string,
    isSpaceObject: bool,
    referenceBody: Body,
    situation: Situation,
    loaded: bool,
    com: Vec3,
    srfVelocity: Vec3,
    totalMass: real,
    seismometers: seq<Seismometers.Seismometer>,
    spectrometers: seq<Spectrometers.Spectrometer>,
    parts: seq<PartSnapshot>)

  /**
   * What the game answers about one impact: the landed subject of the crash
   * body, the low-space subject of the biome under the crash, that biome, and
   * the subject of the asteroid hit.
   */
  datatype Subjects = Subjects(seismic: ScienceSubject, spectral: ScienceSubject, biome: string, asteroid: ScienceSubject)

  /** A crash: the crashing craft, the asteroid it hit if any, and the subjects involved. */
  datatype Impact = Impact(crashVessel: Vessel, asteroid: Option<Vessel>, subjects: Subjects)

  /** 50 m/s, squared: slower crashes are ignored. */
  const MinImpactSpeedSq := 2500.0
  /** 500 km, squared: the range at which an asteroid impact can be observed. */
  const AsteroidRangeSq := 2.5e11
  /** What a collision with the ground reports as the other party. */
  const Surface := "the surface"
  const SeismometerModule := "Seismometer"
  const SpectrometerModule := "Spectrometer"

  function CrashBody(imp: Impact): Body
  {
    imp.crashVessel.referenceBody
  }

  /** The game's bodies and subjects can be divided by. */
  predicate Answerable(imp: Impact)
  {
    && Physical(CrashBody(imp))
    && Sound(imp.subjects.seismic)
    && Sound(imp.subjects.spectral)
    && Sound(imp.subjects.asteroid)
  }

  function Max(a: real, b: real): real
  {
    if a >= b then a else b
  }

  function ImpactEnergy(v: Vessel): real
  {
    CrashEnergy(v.totalMass, NormSq(v.srfVelocity))
  }

  // ---- The three records ----

  /** `createSeismicData`: the crash energy and the science it earns beyond what is banked, at least 0.01. */
  function SeismicData(body: Body, crashVessel: Vessel, subject: ScienceSubject, sqrt: real -> real): (d: ImpactScienceData)
    requires Physical(body) && Sound(subject)
    ensures d.kineticEnergy == ImpactEnergy(crashVessel) && d.biome == None
    ensures d.subjectID == subject.id && d.transmitValue == 1.0 && d.labBoost == 0.0
  {
    var science := KEToScience(ImpactEnergy(crashVessel), body, subject, sqrt);
    var residual := Max(0.01, science - subject.science);
    WithEnergy(ImpactEnergy(crashVessel), residual / subject.subjectValue * subject.dataScale, 1.0, 0.0, subject.id)
  }

  /** `createSpectralData`: what is left of the biome subject's cap, never negative. */
  function SpectralData(biome: string, subject: ScienceSubject): (d: ImpactScienceData)
    requires Sound(subject)
    ensures d.kineticEnergy == 0.0 && d.biome == Some(biome)
    ensures d.subjectID == subject.id && d.transmitValue == 1.0 && d.labBoost == 0.0
  {
    var residual := Max(0.0, subject.scienceCap - subject.science);
    WithBiome(biome, residual / subject.subjectValue * subject.dataScale, 1.0, 0.0, subject.id)
  }

  /** `createAsteroidSpectralData`: the whole cap of the asteroid subject, named after the asteroid. */
  function AsteroidData(asteroidName: string, subject: ScienceSubject): (d: ImpactScienceData)
    requires Sound(subject)
    ensures d.kineticEnergy == 0.0 && d.biome == Some(asteroidName)
    ensures d.subjectID == subject.id && d.transmitValue == 1.0 && d.labBoost == 0.0
  {
    WithBiome(asteroidName, subject.scienceCap / subject.subjectValue * subject.dataScale, 1.0, 0.0, subject.id)
  }

  lemma ScaleByPositive(a: real, b: real, sv: real, ds: real)
    requires a <= b && sv > 0.0 && ds >= 0.0
    ensures a / sv * ds <= b / sv * ds
  {
    assert a / sv <= b / sv;
    assert (b / sv - a / sv) * ds >= 0.0;
  }

  /** A seismic record never carries less than the 0.01 floor, scaled. */
  lemma SeismicFloor(body: Body, crashVessel: Vessel, subject: ScienceSubject, sqrt: real -> real)
    requires Physical(body) && Sound(subject) && subject.dataScale >= 0.0
    ensures SeismicData(body, crashVessel, subject, sqrt).dataAmount >= 0.01 / subject.subjectValue * subject.dataScale
  {
    var science := KEToScience(ImpactEnergy(crashVessel), body, subject, sqrt);
    ScaleByPositive(0.01, Max(0.01, science - subject.science), subject.subjectValue, subject.dataScale);
  }

  /** A crash with more energy never yields a smaller seismic record. */
  lemma SeismicMonotone(body: Body, v1: Vessel, v2: Vessel, subject: ScienceSubject, sqrt: real -> real)
    requires IsSquareRoot(sqrt) && Physical(body) && Sound(subject) && subject.dataScale >= 0.0
    requires 0.0 <= ImpactEnergy(v1) <= ImpactEnergy(v2)
    ensures SeismicData(body, v1, subject, sqrt).dataAmount <= SeismicData(body, v2, subject, sqrt).dataAmount
  {
    KEToScienceMonotone(ImpactEnergy(v1), ImpactEnergy(v2), body, subject, sqrt);
    var s1 := KEToScience(ImpactEnergy(v1), body, subject, sqrt);
    var s2 := KEToScience(ImpactEnergy(v2), body, subject, sqrt);
    var r1, r2 := Max(0.01, s1 - subject.science), Max(0.01, s2 - subject.science);
    assert r1 <= r2;
    ScaleByPositive(r1, r2, subject.subjectValue, subject.dataScale);
    assert SeismicData(body, v1, subject, sqrt).dataAmount == r1 / subject.subjectValue * subject.dataScale;
    assert SeismicData(body, v2, subject, sqrt).dataAmount == r2 / subject.subjectValue * subject.dataScale;
  }

  /** From the body's reference energy on, a seismic record holds all that is left of the cap (at least 0.01). */
  lemma SeismicSaturates(body: Body, crashVessel: Vessel, subject: ScienceSubject, sqrt: real -> real)
    requires IsSquareRoot(sqrt) && Physical(body) && Sound(subject)
    requires ImpactEnergy(crashVessel) >= ReferenceCrash(body)
    ensures SeismicData(body, crashVessel, subject, sqrt).dataAmount
         == Max(0.01, subject.scienceCap - subject.science) / subject.subjectValue * subject.dataScale
  {
    KEToScienceSaturates(ImpactEnergy(crashVessel), body, subject, sqrt);
  }

  /** A spectral record holds what is left of the cap, and nothing once the cap is banked. */
  lemma SpectralRemaining(biome: string, subject: ScienceSubject)
    requires Sound(subject) && subject.dataScale >= 0.0
    ensures SpectralData(biome, subject).dataAmount >= 0.0
    ensures subject.science >= subject.scienceCap ==> SpectralData(biome, subject).dataAmount == 0.0
    ensures subject.science <= subject.scienceCap ==>
      SpectralData(biome, subject).dataAmount == (subject.scienceCap - subject.science) / subject.subjectValue * subject.dataScale
  {
    ScaleByPositive(0.0, Max(0.0, subject.scienceCap - subject.science), subject.subjectValue, subject.dataScale);
  }

  /** An asteroid record ignores the science already banked on its subject. */
  lemma AsteroidIgnoresBanked(asteroidName: string, subject: ScienceSubject, banked: real)
    requires Sound(subject)
    ensures AsteroidData(asteroidName, subject) == AsteroidData(asteroidName, subject.(science := banked))
  {
  }

  // ---- Who hears of an impact ----

  /** The part each craft plays in one impact. */
  datatype Role = Ignored | Seismic | Spectral | AsteroidSpectral

  /** The crash is in front of the observer, seen from the body's centre: the sight angle is below 90 degrees. */
  predicate Visible(body: Body, crashVessel: Vessel, observer: Vessel)
  {
    var crash := Sub(crashVessel.com, body.position);
    var sight := Sub(Sub(observer.com, body.position), crash);
    Dot(crash, sight) > 0.0
  }

  predicate InRange(crashVessel: Vessel, observer: Vessel)
  {
    NormSq(Sub(observer.com, crashVessel.com)) < AsteroidRangeSq
  }

  /** The dispatch of `doImpact` and the range and sight tests of the three observer cases. */
  function RoleOf(imp: Impact, observer: Vessel): (r: Role)
    ensures r != Ignored ==> observer.referenceBody == CrashBody(imp)
    ensures imp.asteroid.None? && CrashBody(imp).atmosphere ==> r == Ignored
    ensures r == Seismic <==>
      observer.referenceBody == CrashBody(imp) && imp.asteroid.None? && !CrashBody(imp).atmosphere && observer.situation == Landed
    ensures r == Spectral <==>
      observer.referenceBody == CrashBody(imp) && imp.asteroid.None? && !CrashBody(imp).atmosphere
      && observer.situation == Orbiting && Visible(CrashBody(imp), imp.crashVessel, observer)
    ensures r == AsteroidSpectral <==>
      observer.referenceBody == CrashBody(imp) && imp.asteroid.Some? && observer.situation == Orbiting && InRange(imp.crashVessel, observer)
  {
    var body := CrashBody(imp);
    if observer.referenceBody != body then Ignored
    else if imp.asteroid.None? then
      if body.atmosphere then Ignored
      else if observer.situation == Landed then Seismic
      else if observer.situation == Orbiting && Visible(body, imp.crashVessel, observer) then Spectral
      else Ignored
    else if observer.situation == Orbiting && InRange(imp.crashVessel, observer) then AsteroidSpectral
    else Ignored
  }

  /** The record an observer in the given role is sent. */
  function RecordFor(imp: Impact, observer: Vessel, sqrt: real -> real): ImpactScienceData
    requires Answerable(imp) && RoleOf(imp, observer) != Ignored
  {
    match RoleOf(imp, observer)
    case Seismic => SeismicData(CrashBody(imp), imp.crashVessel, imp.subjects.seismic, sqrt)
    case Spectral => SpectralData(imp.subjects.biome, imp.subjects.spectral)
    case AsteroidSpectral => AsteroidData(imp.asteroid.value.name, imp.subjects.asteroid)
  }

  datatype Instrument = SeismometerKind | SpectrometerKind

  function ModuleName(kind: Instrument): string
  {
    if kind == SeismometerKind then SeismometerModule else SpectrometerModule
  }

  /** Where a record goes: a loaded instrument, or the stored values of an instrument module. */
  datatype Target =
    | LoadedSeismometer(seismometer: Seismometers.Seismometer)
    | LoadedSpectrometer(spectrometer: Spectrometers.Spectrometer)
    | StoredModule(kind: Instrument, values: ConfigNode)

  function TargetObject(t: Target): object
  {
    match t
    case LoadedSeismometer(s) => s
    case LoadedSpectrometer(s) => s
    case StoredModule(_, n) => n
  }

  /** The values of the first module of that name, in part order and then module order. */
  function FirstIn(modules: seq<ModuleSnapshot>, name: string): Option<ConfigNode>
  {
    if modules == [] then None
    else if modules[0].moduleName == name then Some(modules[0].moduleValues)
    else FirstIn(modules[1..], name)
  }

  function FirstModule(parts: seq<PartSnapshot>, name: string): Option<ConfigNode>
  {
    if parts == [] then None
    else match FirstIn(parts[0].modules, name)
      case Some(n) => Some(n)
      case None => FirstModule(parts[1..], name)
  }

  /** The first instrument of a kind on a craft, loaded or stored. */
  function TargetIn(v: Vessel, kind: Instrument): Option<Target>
  {
    if v.loaded then
      if kind == SeismometerKind then
        if |v.seismometers| != 0 then Some(LoadedSeismometer(v.seismometers[0])) else None
      else
        if |v.spectrometers| != 0 then Some(LoadedSpectrometer(v.spectrometers[0])) else None
    else
      match FirstModule(v.parts, ModuleName(kind))
      case Some(n) => Some(StoredModule(kind, n))
      case None => None
  }

  /** The instrument an observer's record goes to, if it plays a part and has one. */
  function DeliveryOf(imp: Impact, observer: Vessel): Option<Target>
  {
    match RoleOf(imp, observer)
    case Ignored => None
    case Seismic => TargetIn(observer, SeismometerKind)
    case _ => TargetIn(observer, SpectrometerKind)
  }

  function Touched(t: Option<Target>): set<object>
  {
    if t.Some? then {TargetObject(t.value)} else {}
  }

  /** Every instrument the impact may change. */
  function Targets(imp: Impact, vessels: seq<Vessel>): set<object>
  {
    set i | 0 <= i < |vessels| && DeliveryOf(imp, vessels[i]).Some? :: TargetObject(DeliveryOf(imp, vessels[i]).value)
  }

  /** No instrument belongs to two craft. */
  predicate SeparateTargets(imp: Impact, vessels: seq<Vessel>)
  {
    forall i, j :: 0 <= i < j < |vessels| && DeliveryOf(imp, vessels[i]).Some? && DeliveryOf(imp, vessels[j]).Some? ==>
      TargetObject(DeliveryOf(imp, vessels[i]).value) != TargetObject(DeliveryOf(imp, vessels[j]).value)
  }

  /** What an instrument holds: a loaded one its result, a stored one its node. */
  datatype Held = Result(result: Option<ImpactScienceData>) | Stored(node: Node)

  function StateOf(t: Target): Held
    reads TargetObject(t)
  {
    match t
    case LoadedSeismometer(s) => Result(s.result)
    case LoadedSpectrometer(s) => Result(s.result)
    case StoredModule(_, n) => Stored(n.Snapshot())
  }

  /** What an instrument holds after being offered `data`: each instrument applies its own rule. */
  function Next(t: Target, data: ImpactScienceData, before: Held): Held
  {
    match before
    case Result(r) =>
      if t.LoadedSeismometer? then Result(Seismometers.Kept(r, data))
      else if t.LoadedSpectrometer? then Result(Spectrometers.Kept(r, data))
      else before
    case Stored(n) =>
      if t.StoredModule? && t.kind == SeismometerKind then Stored(Seismometers.NewResultNode(n, data))
      else if t.StoredModule? then Stored(Spectrometers.NewResultNode(n, data))
      else before
  }

  /** The records fired on the bang channel, in the order of the craft list. */
  function Fired(imp: Impact, vessels: seq<Vessel>, sqrt: real -> real): seq<ImpactScienceData>
    requires Answerable(imp)
  {
    if vessels == [] then []
    else
      var last := vessels[|vessels| - 1];
      Fired(imp, vessels[..|vessels| - 1], sqrt)
        + (if DeliveryOf(imp, last).Some? then [RecordFor(imp, last, sqrt)] else [])
  }

  /** The craft's instrument, if it has a part in the impact, holds what its rule makes of the record sent. */
  twostate predicate DeliveredTo(imp: Impact, v: Vessel, sqrt: real -> real)
    requires Answerable(imp)
    reads Touched(DeliveryOf(imp, v))
  {
    DeliveryOf(imp, v).Some? ==>
      StateOf(DeliveryOf(imp, v).value)
        == Next(DeliveryOf(imp, v).value, RecordFor(imp, v, sqrt), old(StateOf(DeliveryOf(imp, v).value)))
  }

  /** The craft's instrument, if it has a part in the impact, holds what it held before. */
  twostate predicate Untouched(imp: Impact, v: Vessel)
    reads Touched(DeliveryOf(imp, v))
  {
    DeliveryOf(imp, v).Some? ==> StateOf(DeliveryOf(imp, v).value) == old(StateOf(DeliveryOf(imp, v).value))
  }

  /** Every craft's instrument holds what its rule makes of the record sent to it. */
  twostate predicate Delivered(imp: Impact, vessels: seq<Vessel>, sqrt: real -> real)
    requires Answerable(imp)
    reads Targets(imp, vessels)
  {
    forall i :: 0 <= i < |vessels| ==> DeliveredTo(imp, vessels[i], sqrt)
  }

  /** No craft's instrument changed. */
  twostate predicate NothingDelivered(imp: Impact, vessels: seq<Vessel>)
    reads Targets(imp, vessels)
  {
    forall i :: 0 <= i < |vessels| ==> Untouched(imp, vessels[i])
  }

  /** The first module of that name, searched part by part as `landedVessel` does for a stored craft. */
  method FindModule(parts: seq<PartSnapshot>, name: string) returns (r: Option<ConfigNode>)
    ensures r == FirstModule(parts, name)
    ensures r.Some? ==> old(allocated(r.value))
  {
    var i := 0;
    while i < |parts|
      invariant 0 <= i <= |parts|
      invariant FirstModule(parts[i..], name) == FirstModule(parts, name)
    {
      var modules := parts[i].modules;
      var j := 0;
      while j < |modules|
        invariant 0 <= j <= |modules|
        invariant FirstIn(modules[j..], name) == FirstIn(modules, name)
      {
        if modules[j].moduleName == name {
          return Some(modules[j].moduleValues);
        }
        assert modules[j..][1..] == modules[j + 1..];
        j := j + 1;
      }
      assert parts[i..][1..] == parts[i + 1..];
      i := i + 1;
    }
    return None;
  }

  /** Offers the record to the craft's first instrument of the kind; says whether there was one. */
  method Deliver(v: Vessel, kind: Instrument, data: ImpactScienceData) returns (fired: Option<ImpactScienceData>)
    modifies Touched(TargetIn(v, kind))
    ensures fired == if TargetIn(v, kind).Some? then Some(data) else None
    ensures TargetIn(v, kind).Some? ==>
      StateOf(TargetIn(v, kind).value) == Next(TargetIn(v, kind).value, data, old(StateOf(TargetIn(v, kind).value)))
  {
    if v.loaded {
      if kind == SeismometerKind {
        if |v.seismometers| != 0 {
          var s := v.seismometers[0];
          assert TargetIn(v, kind) == Some(LoadedSeismometer(s));
          s.AddExperiment(data);
          return Some(data);
        }
      } else if |v.spectrometers| != 0 {
        v.spectrometers[0].AddExperiment(data);
        return Some(data);
      }
    } else {
      var values := FindModule(v.parts, ModuleName(kind));
      if values.Some? {
        var t := StoredModule(kind, values.value);
        assert TargetIn(v, kind) == Some(t);
        ghost var before := StateOf(t);
        assert before == old(StateOf(t));
        if kind == SeismometerKind {
          Seismometers.Seismometer.NewResult(values.value, data);
        } else {
          Spectrometers.Spectrometer.NewResult(values.value, data);
        }
        assert StateOf(t) == Next(t, data, before);
        return Some(data);
      }
    }
    return None;
  }

  /** A landed craft's first seismometer receives the seismic record. */
  method LandedVessel(imp: Impact, v: Vessel, sqrt: real -> real) returns (fired: Option<ImpactScienceData>)
    requires Answerable(imp)
    modifies Touched(TargetIn(v, SeismometerKind))
    ensures var data := SeismicData(CrashBody(imp), imp.crashVessel, imp.subjects.seismic, sqrt);
      && fired == (if TargetIn(v, SeismometerKind).Some? then Some(data) else None)
      && (TargetIn(v, SeismometerKind).Some? ==>
            var t := TargetIn(v, SeismometerKind).value;
            StateOf(t) == Next(t, data, old(StateOf(t))))
  {
    var data := SeismicData(CrashBody(imp), imp.crashVessel, imp.subjects.seismic, sqrt);
    fired := Deliver(v, SeismometerKind, data);
  }

  /** An orbiting craft in sight of the crash: its first spectrometer receives the spectral record. */
  method OrbitingVessel(imp: Impact, v: Vessel) returns (fired: Option<ImpactScienceData>)
    requires Answerable(imp)
    modifies if Visible(CrashBody(imp), imp.crashVessel, v) then Touched(TargetIn(v, SpectrometerKind)) else {}
    ensures var data := SpectralData(imp.subjects.biome, imp.subjects.spectral);
      var t := TargetIn(v, SpectrometerKind);
      var seen := Visible(CrashBody(imp), imp.crashVessel, v);
      && fired == (if seen && t.Some? then Some(data) else None)
      && (seen && t.Some? ==> StateOf(t.value) == Next(t.value, data, old(StateOf(t.value))))
  {
    if Visible(CrashBody(imp), imp.crashVessel, v) {
      var data := SpectralData(imp.subjects.biome, imp.subjects.spectral);
      fired := Deliver(v, SpectrometerKind, data);
    } else {
      fired := None;
    }
  }

  /** An orbiting craft within range of an asteroid impact: its first spectrometer receives the asteroid record. */
  method NearAsteroidVessel(imp: Impact, v: Vessel) returns (fired: Option<ImpactScienceData>)
    requires Answerable(imp) && imp.asteroid.Some?
    modifies if InRange(imp.crashVessel, v) then Touched(TargetIn(v, SpectrometerKind)) else {}
    ensures var data := AsteroidData(imp.asteroid.value.name, imp.subjects.asteroid);
      var t := TargetIn(v, SpectrometerKind);
      var near := InRange(imp.crashVessel, v);
      && fired == (if near && t.Some? then Some(data) else None)
      && (near && t.Some? ==> StateOf(t.value) == Next(t.value, data, old(StateOf(t.value))))
  {
    if InRange(imp.crashVessel, v) {
      var data := AsteroidData(imp.asteroid.value.name, imp.subjects.asteroid);
      fired := Deliver(v, SpectrometerKind, data);
    } else {
      fired := None;
    }
  }

  /** One pass of the `doImpact` loop: the craft's role decides which of the three cases runs. */
  method Observe(imp: Impact, v: Vessel, sqrt: real -> real) returns (fired: Option<ImpactScienceData>)
    requires Answerable(imp) && !(CrashBody(imp).atmosphere && imp.asteroid.None?)
    modifies Touched(DeliveryOf(imp, v))
    ensures fired == if DeliveryOf(imp, v).Some? then Some(RecordFor(imp, v, sqrt)) else None
    ensures DeliveredTo(imp, v, sqrt)
  {
    fired := None;
    if v.referenceBody == CrashBody(imp) {
      if imp.asteroid.None? {
        if v.situation == Landed {
          fired := LandedVessel(imp, v, sqrt);
        }
        if v.situation == Orbiting {
          fired := OrbitingVessel(imp, v);
        }
      } else if v.situation == Orbiting {
        fired := NearAsteroidVessel(imp, v);
      }
    }
  }

  lemma FiredStep(imp: Impact, vessels: seq<Vessel>, i: nat, sqrt: real -> real)
    requires Answerable(imp) && i < |vessels|
    ensures Fired(imp, vessels[..i + 1], sqrt)
         == Fired(imp, vessels[..i], sqrt) + (if DeliveryOf(imp, vessels[i]).Some? then [RecordFor(imp, vessels[i], sqrt)] else [])
  {
    assert vessels[..i + 1][..i] == vessels[..i];
  }

  /** `Observe` on the i-th craft of the list, which changes no other craft's instrument. */
  method ObserveAt(imp: Impact, vessels: seq<Vessel>, i: nat, sqrt: real -> real) returns (fired: Option<ImpactScienceData>)
    requires Answerable(imp) && !(CrashBody(imp).atmosphere && imp.asteroid.None?)
    requires SeparateTargets(imp, vessels) && i < |vessels|
    modifies Touched(DeliveryOf(imp, vessels[i]))
    ensures fired == if DeliveryOf(imp, vessels[i]).Some? then Some(RecordFor(imp, vessels[i], sqrt)) else None
    ensures DeliveredTo(imp, vessels[i], sqrt)
    ensures forall j :: 0 <= j < |vessels| && j != i ==> Untouched(imp, vessels[j])
  {
    var v := vessels[i];
    fired := Observe(imp, v, sqrt);
    forall j | 0 <= j < |vessels| && j != i && DeliveryOf(imp, vessels[j]).Some?
      ensures StateOf(DeliveryOf(imp, vessels[j]).value) == old(StateOf(DeliveryOf(imp, vessels[j]).value))
    {
      var t := DeliveryOf(imp, vessels[j]).value;
      if DeliveryOf(imp, v).Some? {
        assert TargetObject(t) != TargetObject(DeliveryOf(imp, v).value);
      }
      assert TargetObject(t) !in Touched(DeliveryOf(imp, v));
      assert unchanged(TargetObject(t));
    }
  }

  /** On an airless body every craft's role is none unless an asteroid was hit. */
  lemma {:induction false} AtmosphereSilences(imp: Impact, vessels: seq<Vessel>, sqrt: real -> real)
    requires Answerable(imp) && CrashBody(imp).atmosphere && imp.asteroid.None?
    ensures Fired(imp, vessels, sqrt) == []
    ensures Targets(imp, vessels) == {}
  {
    if vessels != [] {
      AtmosphereSilences(imp, vessels[..|vessels| - 1], sqrt);
    }
  }

  /** `doImpact`: every craft around the crash body is offered its record, in list order. */
  method DoImpact(imp: Impact, vessels: seq<Vessel>, sqrt: real -> real) returns (fired: seq<ImpactScienceData>)
    requires Answerable(imp) && SeparateTargets(imp, vessels)
    modifies Targets(imp, vessels)
    ensures fired == Fired(imp, vessels, sqrt)
    ensures Delivered(imp, vessels, sqrt)
  {
    if CrashBody(imp).atmosphere && imp.asteroid.None? {
      AtmosphereSilences(imp, vessels, sqrt);
      return [];
    }
    fired := [];
    var i := 0;
    while i < |vessels|
      invariant 0 <= i <= |vessels|
      invariant fired == Fired(imp, vessels[..i], sqrt)
      invariant forall j :: 0 <= j < i ==> DeliveredTo(imp, vessels[j], sqrt)
      invariant forall j :: i <= j < |vessels| ==> Untouched(imp, vessels[j])
    {
      assert Touched(DeliveryOf(imp, vessels[i])) <= Targets(imp, vessels);
      var got := ObserveAt(imp, vessels, i, sqrt);
      FiredStep(imp, vessels, i, sqrt);
      if got.Some? {
        fired := fired + [got.value];
      }
      i := i + 1;
    }
    assert vessels[..i] == vessels;
  }

  /** Each record fired is the record of one craft that plays a part and has an instrument for it. */
  lemma {:induction false} FiredComesFromObservers(imp: Impact, vessels: seq<Vessel>, sqrt: real -> real)
    requires Answerable(imp)
    ensures |Fired(imp, vessels, sqrt)| <= |vessels|
    ensures forall k :: 0 <= k < |Fired(imp, vessels, sqrt)| ==>
      exists i :: 0 <= i < |vessels| && DeliveryOf(imp, vessels[i]).Some? && Fired(imp, vessels, sqrt)[k] == RecordFor(imp, vessels[i], sqrt)
  {
    if vessels != [] {
      var init := vessels[..|vessels| - 1];
      FiredComesFromObservers(imp, init, sqrt);
      var last := vessels[|vessels| - 1];
      var f := Fired(imp, vessels, sqrt);
      var g := Fired(imp, init, sqrt);
      assert f == g + (if DeliveryOf(imp, last).Some? then [RecordFor(imp, last, sqrt)] else []);
      forall k | 0 <= k < |f|
        ensures exists i :: 0 <= i < |vessels| && DeliveryOf(imp, vessels[i]).Some? && f[k] == RecordFor(imp, vessels[i], sqrt)
      {
        if k < |g| {
          assert f[k] == g[k];
          var i :| 0 <= i < |init| && DeliveryOf(imp, init[i]).Some? && g[k] == RecordFor(imp, init[i], sqrt);
          assert vessels[i] == init[i];
        } else {
          assert f[k] == RecordFor(imp, vessels[|vessels| - 1], sqrt);
        }
      }
    }
  }

  /** A craft that plays no part, or has no instrument for its part, adds nothing to what is fired. */
  lemma {:induction false} FiredSkipsBystanders(imp: Impact, vessels: seq<Vessel>, others: seq<Vessel>, sqrt: real -> real)
    requires Answerable(imp)
    requires forall v :: v in others ==> DeliveryOf(imp, v).None?
    ensures Fired(imp, vessels + others, sqrt) == Fired(imp, vessels, sqrt)
    decreases |others|
  {
    if others == [] {
      assert vessels + others == vessels;
    } else {
      var init := others[..|others| - 1];
      var all := vessels + others;
      assert all[..|all| - 1] == vessels + init;
      assert all[|all| - 1] in others;
      FiredSkipsBystanders(imp, vessels, init, sqrt);
    }
  }

  // ---- The collision events ----

  /** The first space object of that name among the craft. */
  function FirstSpaceObject(vessels: seq<Vessel>, name: string): (r: Option<Vessel>)
    ensures r.Some? ==> r.value in vessels && r.value.name == name && r.value.isSpaceObject
    ensures r.None? <==> forall v :: v in vessels ==> !(v.name == name && v.isSpaceObject)
  {
    if vessels == [] then None
    else if vessels[0].name == name && vessels[0].isSpaceObject then Some(vessels[0])
    else FirstSpaceObject(vessels[1..], name)
  }

  predicate FastEnough(crashVessel: Vessel)
  {
    NormSq(crashVessel.srfVelocity) >= MinImpactSpeedSq
  }

  /** `OnCrash`: a crash at 50 m/s or more is an impact on the crash body, with no asteroid. */
  method OnCrash(crashVessel: Vessel, vessels: seq<Vessel>, subjects: Subjects, sqrt: real -> real)
    returns (fired: seq<ImpactScienceData>)
    requires FastEnough(crashVessel) ==>
      Answerable(Impact(crashVessel, None, subjects)) && SeparateTargets(Impact(crashVessel, None, subjects), vessels)
    modifies Targets(Impact(crashVessel, None, subjects), vessels)
    ensures !FastEnough(crashVessel) ==> fired == [] && NothingDelivered(Impact(crashVessel, None, subjects), vessels)
    ensures FastEnough(crashVessel) ==>
      && fired == Fired(Impact(crashVessel, None, subjects), vessels, sqrt)
      && Delivered(Impact(crashVessel, None, subjects), vessels, sqrt)
  {
    if !FastEnough(crashVessel) {
      return [];
    }
    fired := DoImpact(Impact(crashVessel, None, subjects), vessels, sqrt);
  }

  /** A collision counts when it is fast enough and was with the ground or with a space object of that name. */
  predicate CollisionCounts(other: string, crashVessel: Vessel, vessels: seq<Vessel>)
  {
    FastEnough(crashVessel) && (other == Surface || FirstSpaceObject(vessels, other).Some?)
  }

  function CollisionImpact(other: string, crashVessel: Vessel, vessels: seq<Vessel>, subjects: Subjects): Impact
  {
    Impact(crashVessel, FirstSpaceObject(vessels, other), subjects)
  }

  /** `OnCollide`: a collision with the ground, or with a known asteroid, at 50 m/s or more is an impact. */
  method OnCollide(other: string, crashVessel: Vessel, vessels: seq<Vessel>, subjects: Subjects, sqrt: real -> real)
    returns (fired: seq<ImpactScienceData>)
    requires CollisionCounts(other, crashVessel, vessels) ==>
      && Answerable(CollisionImpact(other, crashVessel, vessels, subjects))
      && SeparateTargets(CollisionImpact(other, crashVessel, vessels, subjects), vessels)
    modifies Targets(CollisionImpact(other, crashVessel, vessels, subjects), vessels)
    ensures !CollisionCounts(other, crashVessel, vessels) ==>
      fired == [] && NothingDelivered(CollisionImpact(other, crashVessel, vessels, subjects), vessels)
    ensures CollisionCounts(other, crashVessel, vessels) ==>
      && fired == Fired(CollisionImpact(other, crashVessel, vessels, subjects), vessels, sqrt)
      && Delivered(CollisionImpact(other, crashVessel, vessels, subjects), vessels, sqrt)
  {
    if !FastEnough(crashVessel) {
      return [];
    }
    var asteroid := None;
    var i := 0;
    while i < |vessels|
      invariant 0 <= i <= |vessels|
      invariant FirstSpaceObject(vessels[i..], other) == FirstSpaceObject(vessels, other)
    {
      if vessels[i].name == other && vessels[i].isSpaceObject {
        asteroid := Some(vessels[i]);
        break;
      }
      assert vessels[i..][1..] == vessels[i + 1..];
      i := i + 1;
    }
    if other != Surface && asteroid.None? {
      return [];
    }
    fired := DoImpact(Impact(crashVessel, asteroid, subjects), vessels, sqrt);
  }
}
