/**
 * The energy label shown with an impact: the energy is divided by 1000 until
 * fewer than four digits stand before the point, and the number of divisions
 * picks an SI suffix.  The loop as written may run one division too far and
 * index past the last suffix; `EnergyFormat` is the corrected form.
 */
module EnergyFormats {
  import opened Options

  const Suffixes: seq<string> := ["J", "kJ", "MJ", "GJ", "TJ", "PJ"]

  function Pow1000(k: nat): (r: real)
    ensures r >= 1.0
  {
    if k == 0 then 1.0 else 1000.0 * Pow1000(k - 1)
  }

  lemma {:induction false} Pow1000Monotone(j: nat, k: nat)
    requires j <= k
    ensures Pow1000(j) <= Pow1000(k)
  {
    if j < k {
      Pow1000Monotone(j, k - 1);
    }
  }

  /** One more suffix than exists is reached at 10^18 J. */
  lemma Pow1000Suffixes()
    ensures Pow1000(|Suffixes|) == 1e18
  {
    assert Pow1000(1) == 1e3;
    assert Pow1000(2) == 1e6;
    assert Pow1000(3) == 1e9;
    assert Pow1000(4) == 1e12;
    assert Pow1000(5) == 1e15;
  }

  lemma ScaledBelow(f: real, p: real, bound: real)
    requires f < bound && p > 0.0
    ensures f * p < bound * p
  {
  }

  lemma ScaledBelowInverse(f: real, p: real, bound: real)
    requires f * p < bound * p && p > 0.0
    ensures f < bound
  {
    assert (bound - f) * p > 0.0;
  }

  lemma ScaledAtLeast(f: real, p: real)
    requires f >= 1.0 && p > 0.0
    ensures f * p >= p
  {
    assert (f - 1.0) * p >= 0.0;
  }

  /** A label: the scaled figures, the digit pattern they are printed with, and the suffix. */
  datatype Label = Label(figures: real, pattern: string, suffix: string)

  /** The pattern that shows three significant figures. */
  function SigFigPattern(figures: real): string
  {
    if figures >= 100.0 then "000" else if figures >= 10.0 then "00.0" else "0.00"
  }

  /** `text` shows `crashEnergy` as its figures times 1000^k with the k-th suffix. */
  predicate Shows(text: Label, crashEnergy: real, k: nat)
    requires k < |Suffixes|
  {
    && text.suffix == Suffixes[k]
    && text.figures * Pow1000(k) == crashEnergy
    && text.pattern == SigFigPattern(text.figures)
    && (k > 0 ==> 1.0 <= text.figures)
    && (k < |Suffixes| - 1 ==> text.figures < 1000.0)
  }

  /**
   * The scaling loop: divides by 1000 while the figures are at least 1000 and
   * fewer than `limit` divisions were made.
   */
  method Scale(crashEnergy: real, limit: nat) returns (figures: real, index: nat)
    ensures index <= limit
    ensures figures * Pow1000(index) == crashEnergy
    ensures index < limit ==> figures < 1000.0
    ensures index > 0 ==> figures >= 1.0
  {
    figures := crashEnergy;
    index := 0;
    while figures >= 1000.0 && index < limit
      invariant index <= limit
      invariant figures * Pow1000(index) == crashEnergy
      invariant index > 0 ==> figures >= 1.0
      decreases limit - index
    {
      assert (figures / 1000.0) * Pow1000(index + 1) == figures * Pow1000(index);
      figures := figures / 1000.0;
      index := index + 1;
    }
  }

  /**
   * `energyFormat` as written: the loop may stop at index 6, and reading the
   * suffix there fails.  `None` stands for that failed read.
   */
  method EnergyFormatAsWritten(crashEnergy: real) returns (r: Option<Label>)
    ensures r.None? <==> crashEnergy >= 1e18
    ensures r.Some? ==> exists k :: 0 <= k < |Suffixes| && Shows(r.value, crashEnergy, k)
  {
    var figures, index := Scale(crashEnergy, |Suffixes|);
    Pow1000Suffixes();
    if index < |Suffixes| {
      r := Some(Label(figures, SigFigPattern(figures), Suffixes[index]));
      assert Shows(r.value, crashEnergy, index);
      Pow1000Monotone(index + 1, |Suffixes|);
      ScaledBelow(figures, Pow1000(index), 1000.0);
    } else {
      ScaledAtLeast(figures, Pow1000(index));
      r := None;
    }
  }

  /** The corrected label: the loop stops at the last suffix, so every energy gets one. */
  method EnergyFormat(crashEnergy: real) returns (r: Label)
    ensures exists k :: 0 <= k < |Suffixes| && Shows(r, crashEnergy, k)
    ensures 1.0 <= crashEnergy < 1e18 ==> 1.0 <= r.figures < 1000.0
  {
    var figures, index := Scale(crashEnergy, |Suffixes| - 1);
    r := Label(figures, SigFigPattern(figures), Suffixes[index]);
    assert Shows(r, crashEnergy, index);
    if 1.0 <= crashEnergy < 1e18 && index == |Suffixes| - 1 {
      Pow1000Suffixes();
      assert Pow1000(|Suffixes|) == 1000.0 * Pow1000(index);
      ScaledBelowInverse(figures, Pow1000(index), 1000.0);
    }
  }
}
