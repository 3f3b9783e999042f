/** The three labels the heuristic engine derives from the feature vector before
    matching: the dominant colour channel, the fossil likelihood and the
    roundness (transport) class. */
module Labels {
  import opened Numeric
  import opened Text

  /** `detectedBias`, also the `colorBias` of an archetype. */
  datatype ColorBias = Red | Green | Blue | Neutral

  /** The bias as the source spells it ('red', 'green', 'blue', 'neutral'). */
  function BiasName(b: ColorBias): (s: string)
    ensures 3 <= |s| <= 7
  {
    match b
    case Red => "red"
    case Green => "green"
    case Blue => "blue"
    case Neutral => "neutral"
  }

  /** The three channel tests, each independent of the others. */
  predicate RedDominant(r: real, g: real, b: real) { r > g + 15.0 && r > b + 15.0 }
  predicate GreenDominant(r: real, g: real, b: real) { g > r + 10.0 && g > b + 5.0 }
  predicate BlueDominant(r: real, g: real, b: real) { b > r + 10.0 && b > g + 5.0 }

  /** First match over red, green, blue; neutral when no test holds. */
  function DetectBias(r: real, g: real, b: real): (bias: ColorBias)
    ensures bias == Red ==> RedDominant(r, g, b)
    ensures bias == Green ==> GreenDominant(r, g, b)
    ensures bias == Blue ==> BlueDominant(r, g, b)
    ensures bias == Neutral ==> !RedDominant(r, g, b) && !GreenDominant(r, g, b) && !BlueDominant(r, g, b)
  {
    if RedDominant(r, g, b) then Red
    else if GreenDominant(r, g, b) then Green
    else if BlueDominant(r, g, b) then Blue
    else Neutral
  }

  /** No two channel tests can hold together, so the order of the tests never
      decides the outcome: each test holds exactly when its bias is chosen. */
  lemma BiasTestsExclusive(r: real, g: real, b: real)
    ensures RedDominant(r, g, b) <==> DetectBias(r, g, b) == Red
    ensures GreenDominant(r, g, b) <==> DetectBias(r, g, b) == Green
    ensures BlueDominant(r, g, b) <==> DetectBias(r, g, b) == Blue
    ensures !(RedDominant(r, g, b) && GreenDominant(r, g, b))
    ensures !(RedDominant(r, g, b) && BlueDominant(r, g, b))
    ensures !(GreenDominant(r, g, b) && BlueDominant(r, g, b))
  {
  }

  /** Only the differences between channels matter: brightening every channel
      by the same amount keeps the bias. */
  lemma BiasShiftInvariant(r: real, g: real, b: real, k: real)
    ensures DetectBias(r + k, g + k, b + k) == DetectBias(r, g, b)
  {
  }

  /** Averages (200, 100, 100) are red-biased. */
  lemma RedExample()
    ensures DetectBias(200.0, 100.0, 100.0) == Red
  {
  }

  /** `fossilLikelihood`. */
  datatype Fossil = Low | Moderate | HighPreliminary

  function FossilName(f: Fossil): string
  {
    match f
    case Low => "Low"
    case Moderate => "Moderate"
    case HighPreliminary => "High (Preliminary)"
  }

  /** The fossil decision: the Moderate test (index above 1.2 together with
      edge density above 0.08) comes first, then index above 1.8 alone. Every
      comparison with a NaN index is false. */
  function FossilLikelihood(index: Number, normalizedEdge: real): (f: Fossil)
    ensures f == Moderate <==> Exceeds(index, 1.2) && normalizedEdge > 0.08
    ensures f == HighPreliminary <==> Exceeds(index, 1.8) && normalizedEdge <= 0.08
    ensures f == Low <==> !Exceeds(index, 1.2) || (!Exceeds(index, 1.8) && normalizedEdge <= 0.08)
  {
    if Exceeds(index, 1.2) && normalizedEdge > 0.08 then Moderate
    else if Exceeds(index, 1.8) then HighPreliminary
    else Low
  }

  /** An index above both thresholds with dense edges reports Moderate, not
      High: the High branch is reached only when the Moderate test failed. */
  lemma ModerateShadowsHigh(index: Number, normalizedEdge: real)
    requires Exceeds(index, 1.8) && normalizedEdge > 0.08
    ensures FossilLikelihood(index, normalizedEdge) == Moderate
  {
  }

  /** Consequently more edges can lower the label: at index 2.0, edge density
      0.05 reports High and 0.10 reports Moderate. */
  lemma FossilNotMonotoneInEdges()
    ensures FossilLikelihood(Finite(2.0), 0.05) == HighPreliminary
    ensures FossilLikelihood(Finite(2.0), 0.10) == Moderate
  {
  }

  /** A grid without edges gives a NaN index, which fails both tests. */
  lemma NaNIndexIsLow(normalizedEdge: real)
    ensures FossilLikelihood(NaN, normalizedEdge) == Low
  {
  }

  /** The index threshold in squared form: for a positive mean, the ratio
      sqrt(v) / mean exceeds c exactly when v exceeds c^2 * mean^2. */
  lemma {:induction false} IndexThresholdSquared(sqrt: real -> real, v: real, mean: real, c: real)
    requires IsSqrt(sqrt)
    requires 0.0 <= v && 0.0 < mean && 0.0 <= c
    ensures Exceeds(Divide(sqrt(v), mean), c) <==> v > c * c * (mean * mean)
  {
    var r := sqrt(v);
    var q := r / mean;
    assert Divide(r, mean) == Finite(q);
    assert r == q * mean;
    if q > c {
      MulStrict(c, q);
      assert c * c < q * q;
      assert v == (q * q) * (mean * mean);
      assert c * c * (mean * mean) < q * q * (mean * mean);
    } else {
      MulMono(q, c);
      assert v == (q * q) * (mean * mean);
      assert q * q * (mean * mean) <= c * c * (mean * mean);
    }
  }

  /** The fossil text that follows the likelihood in the report. `bci` is the
      index written by `toFixed(2)`. */
  function FossilDetails(f: Fossil, bci: string): (s: string)
    ensures f == Moderate ==> Includes(s, bci)
  {
    match f
    case Low => "No significant localized structural " + "anomalies detected."
    case Moderate =>
      var s := "Detected localized edge clusters (BCI: " + bci + ") consistent with potential biomorphic " + "imprints or trace fossil structures.";
      assert OccursAt(s, bci, 39);
      s
    case HighPreliminary =>
      "Strong spatial complexity anomalies " + "detected. Highly suggestive of " + "repetitive biological structures or " + "intricate mineralized imprints."
  }

  /** `roundness`, ordered from most to least transported. */
  datatype Roundness = WellRounded | SubRounded | SubAngular | Angular

  function RoundnessName(r: Roundness): string
  {
    match r
    case WellRounded => "Well-rounded (High-Energy Fluvial)"
    case SubRounded => "Sub-rounded"
    case SubAngular => "Sub-angular (Local Colluvial)"
    case Angular => "Angular / Fractured " + "(In-situ / Brecciated)"
  }

  function Rank(r: Roundness): nat
  {
    match r
    case WellRounded => 0
    case SubRounded => 1
    case SubAngular => 2
    case Angular => 3
  }

  /** First match: below 0.06 well-rounded, above 0.16 angular, above 0.11
      sub-angular, otherwise sub-rounded. */
  function RoundnessOf(normalizedEdge: real): (r: Roundness)
    ensures r == WellRounded <==> normalizedEdge < 0.06
    ensures r == Angular <==> normalizedEdge > 0.16
    ensures r == SubAngular <==> 0.11 < normalizedEdge <= 0.16
    ensures r == SubRounded <==> 0.06 <= normalizedEdge <= 0.11
  {
    if normalizedEdge < 0.06 then WellRounded
    else if normalizedEdge > 0.16 then Angular
    else if normalizedEdge > 0.11 then SubAngular
    else SubRounded
  }

  /** More edge density never gives a more rounded class. */
  lemma RoundnessMonotone(e1: real, e2: real)
    requires e1 <= e2
    ensures Rank(RoundnessOf(e1)) <= Rank(RoundnessOf(e2))
  {
  }
}
