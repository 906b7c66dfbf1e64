/**
 * The energy <-> science arithmetic of the impact monitor: the kinetic energy
 * of a crash, the per-body reference energy, and the two translations between
 * energy and science.  Square roots come from the caller (`sqrt`), and the
 * lemmas that need them assume only that `sqrt` is a square root.
 */
module ScoreTranslation {
  import opened Host

  /** `sqrt` gives the non-negative square root of every non-negative number. */
  ghost predicate IsSquareRoot(sqrt: real -> real)
  {
    forall x {:trigger sqrt(x)} :: 0.0 <= x ==> 0.0 <= sqrt(x) && sqrt(x) * sqrt(x) == x
  }

  function Min(a: real, b: real): real
  {
    if a <= b then a else b
  }

  /** Kinetic energy in joules of a craft of `totalMass` tonnes moving at a speed whose square is `speedSq`. */
  function CrashEnergy(totalMass: real, speedSq: real): real
  {
    0.5 * (totalMass * 1000.0) * speedSq
  }

  /** Square of the escape speed of a body: 2 mu / R. */
  function EscapeSpeedSq(body: Body): real
    requires body.radius != 0.0
  {
    2.0 * body.gravParameter / body.radius
  }

  /** The energy that earns the full science cap on a body. */
  function ReferenceCrash(body: Body): real
    requires body.radius != 0.0
  {
    15e3 * body.gravParameter / body.radius
  }

  /** Energy needed for `science` (no clamp: science above the cap asks for more energy). */
  function ScienceToKE(science: real, body: Body, subject: ScienceSubject): real
    requires body.radius != 0.0 && subject.scienceCap != 0.0
  {
    var relativeScience := science / subject.scienceCap;
    relativeScience * relativeScience * ReferenceCrash(body)
  }

  /** Science earned by a crash of the given energy, clamped to the subject's cap. */
  function KEToScience(crashEnergy: real, body: Body, subject: ScienceSubject, sqrt: real -> real): real
    requires Physical(body)
  {
    var relativeScience := Min(sqrt(crashEnergy / ReferenceCrash(body)), 1.0);
    relativeScience * subject.scienceCap
  }

  /** The reference energy is that of a 15 tonne impactor arriving at escape speed. */
  lemma ReferenceIsEscapeImpact(body: Body)
    requires body.radius != 0.0
    ensures ReferenceCrash(body) == CrashEnergy(15.0, EscapeSpeedSq(body))
  {
    calc {
      CrashEnergy(15.0, EscapeSpeedSq(body));
      0.5 * 15000.0 * (2.0 * body.gravParameter / body.radius);
      15e3 * body.gravParameter / body.radius;
    }
  }

  lemma ReferenceCrashPositive(body: Body)
    requires Physical(body)
    ensures ReferenceCrash(body) > 0.0
  {
  }

  /** The reference energy is proportional to the body's gravitational parameter and inverse to its radius. */
  lemma ReferenceCrashScales(body: Body, k: real)
    requires body.radius != 0.0 && k != 0.0
    ensures ReferenceCrash(body.(gravParameter := k * body.gravParameter)) == k * ReferenceCrash(body)
    ensures k * ReferenceCrash(body.(radius := k * body.radius)) == ReferenceCrash(body)
  {
    var mu, r := body.gravParameter, body.radius;
    assert 15e3 * (k * mu) / r == k * (15e3 * mu / r);
    assert k * (15e3 * mu / (k * r)) == 15e3 * mu / r;
  }

  lemma MulPos(a: real, b: real)
    requires a > 0.0 && b > 0.0
    ensures a * b > 0.0
  {
  }

  /** Two non-negative numbers with equal squares are equal. */
  lemma SquaresEqual(y: real, t: real)
    requires 0.0 <= y && 0.0 <= t && y * y == t * t
    ensures y == t
  {
    if y < t {
      assert (t - y) * (t + y) == t * t - y * y;
      MulPos(t - y, t + y);
    } else if y > t {
      assert (y - t) * (y + t) == y * y - t * t;
      MulPos(y - t, y + t);
    }
  }

  lemma SqrtOfSquare(sqrt: real -> real, t: real)
    requires IsSquareRoot(sqrt) && t >= 0.0
    ensures sqrt(t * t) == t
  {
    var y := sqrt(t * t);
    assert 0.0 <= y && y * y == t * t;
    SquaresEqual(y, t);
  }

  lemma NonNegativeFactor(d: real, s: real)
    requires s > 0.0 && d * s >= 0.0
    ensures d >= 0.0
  {
    assert d == (d * s) / s;
  }

  lemma SqrtMonotone(sqrt: real -> real, a: real, b: real)
    requires IsSquareRoot(sqrt) && 0.0 <= a <= b
    ensures sqrt(a) <= sqrt(b)
  {
    var ya, yb := sqrt(a), sqrt(b);
    assert 0.0 <= ya && ya * ya == a;
    assert 0.0 <= yb && yb * yb == b;
    assert (yb - ya) * (yb + ya) == b - a;
    if yb + ya != 0.0 {
      NonNegativeFactor(yb - ya, yb + ya);
    }
  }

  lemma SqrtAtLeastOne(sqrt: real -> real, a: real)
    requires IsSquareRoot(sqrt) && 1.0 <= a
    ensures sqrt(a) >= 1.0
  {
    var y := sqrt(a);
    assert 0.0 <= y && y * y == a;
    assert (y - 1.0) * (y + 1.0) == a - 1.0;
    NonNegativeFactor(y - 1.0, y + 1.0);
  }

  /** The energy asked for grows with the science asked for. */
  lemma ScienceToKEMonotone(s1: real, s2: real, body: Body, subject: ScienceSubject)
    requires Physical(body) && Sound(subject)
    requires 0.0 <= s1 <= s2
    ensures ScienceToKE(s1, body, subject) <= ScienceToKE(s2, body, subject)
  {
    var r1, r2 := s1 / subject.scienceCap, s2 / subject.scienceCap;
    assert 0.0 <= r1 <= r2;
    assert r1 * r1 <= r1 * r2 <= r2 * r2;
    ReferenceCrashPositive(body);
  }

  /** Asking for the whole cap asks for exactly the reference energy. */
  lemma ScienceToKEAtCap(body: Body, subject: ScienceSubject)
    requires Physical(body) && Sound(subject)
    ensures ScienceToKE(subject.scienceCap, body, subject) == ReferenceCrash(body)
  {
  }

  /** Science earned by a crash never leaves [0, cap]. */
  lemma KEToScienceBounds(crashEnergy: real, body: Body, subject: ScienceSubject, sqrt: real -> real)
    requires IsSquareRoot(sqrt) && Physical(body) && subject.scienceCap >= 0.0 && crashEnergy >= 0.0
    ensures 0.0 <= KEToScience(crashEnergy, body, subject, sqrt) <= subject.scienceCap
  {
    ReferenceCrashPositive(body);
    var ratio := crashEnergy / ReferenceCrash(body);
    assert ratio >= 0.0;
    var rel := Min(sqrt(ratio), 1.0);
    assert 0.0 <= sqrt(ratio);
    assert 0.0 <= rel <= 1.0;
    assert 0.0 <= rel * subject.scienceCap <= 1.0 * subject.scienceCap;
  }

  /** More energy never earns less science. */
  lemma KEToScienceMonotone(e1: real, e2: real, body: Body, subject: ScienceSubject, sqrt: real -> real)
    requires IsSquareRoot(sqrt) && Physical(body) && subject.scienceCap >= 0.0 && 0.0 <= e1 <= e2
    ensures KEToScience(e1, body, subject, sqrt) <= KEToScience(e2, body, subject, sqrt)
  {
    var ref := ReferenceCrash(body);
    ReferenceCrashPositive(body);
    assert e1 / ref <= e2 / ref;
    SqrtMonotone(sqrt, e1 / ref, e2 / ref);
    var m1, m2 := Min(sqrt(e1 / ref), 1.0), Min(sqrt(e2 / ref), 1.0);
    assert m1 <= m2;
    assert m1 * subject.scienceCap <= m2 * subject.scienceCap;
  }

  /** Up to the cap, translating science to energy and back gives the science again. */
  lemma ScienceRoundTrip(science: real, body: Body, subject: ScienceSubject, sqrt: real -> real)
    requires IsSquareRoot(sqrt) && Physical(body) && Sound(subject)
    requires 0.0 <= science <= subject.scienceCap
    ensures KEToScience(ScienceToKE(science, body, subject), body, subject, sqrt) == science
  {
    var ref := ReferenceCrash(body);
    ReferenceCrashPositive(body);
    var rel := science / subject.scienceCap;
    assert 0.0 <= rel <= 1.0;
    assert ScienceToKE(science, body, subject) / ref == rel * rel;
    SqrtOfSquare(sqrt, rel);
    assert Min(sqrt(rel * rel), 1.0) == rel;
  }

  /** Up to the reference energy, translating energy to science and back gives the energy again. */
  lemma EnergyRoundTrip(crashEnergy: real, body: Body, subject: ScienceSubject, sqrt: real -> real)
    requires IsSquareRoot(sqrt) && Physical(body) && Sound(subject)
    requires 0.0 <= crashEnergy <= ReferenceCrash(body)
    ensures ScienceToKE(KEToScience(crashEnergy, body, subject, sqrt), body, subject) == crashEnergy
  {
    var ref := ReferenceCrash(body);
    ReferenceCrashPositive(body);
    var ratio := crashEnergy / ref;
    assert 0.0 <= ratio <= 1.0;
    var y := sqrt(ratio);
    assert 0.0 <= y && y * y == ratio;
    SqrtMonotone(sqrt, ratio, 1.0);
    SqrtOfSquare(sqrt, 1.0);
    assert y <= 1.0;
    var science := y * subject.scienceCap;
    assert science / subject.scienceCap == y;
    assert y * y * ref == crashEnergy;
  }

  /** From the reference energy on, the science earned is the whole cap. */
  lemma KEToScienceSaturates(crashEnergy: real, body: Body, subject: ScienceSubject, sqrt: real -> real)
    requires IsSquareRoot(sqrt) && Physical(body)
    requires crashEnergy >= ReferenceCrash(body)
    ensures KEToScience(crashEnergy, body, subject, sqrt) == subject.scienceCap
  {
    ReferenceCrashPositive(body);
    SqrtAtLeastOne(sqrt, crashEnergy / ReferenceCrash(body));
  }
}
