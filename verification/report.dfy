/** The offline heuristic engine end to end: features, labels and match of a
    sampled image, and the seven-section report text it resolves with. */
module Report {
  import opened Numeric
  import opened Outcomes
  import opened Text
  import opened Pixels
  import opened Features
  import opened Labels
  import opened Archetypes

  /** Everything the report is written from. */
  datatype Analysis = Analysis(
    features: FeatureVector,
    bias: ColorBias,
    fossil: Fossil,
    fossilDetails: string,
    roundness: Roundness,
    best: nat,
    archetype: Archetype,
    lowestDistance: real,
    confidence: int)

  function ProbeOf(f: FeatureVector, bias: ColorBias): Probe
  {
    Probe(f.avgGray, f.textureScore, f.normalizedEdge, bias)
  }

  /** The analysis of a sampled image; `sqrt` stands for `Math.sqrt`. */
  function Analyze(img: Image, sqrt: real -> real): (a: Analysis)
    requires IsSqrt(sqrt)
    ensures a.features == Extract(img, sqrt)
    ensures a.bias == DetectBias(a.features.avgR, a.features.avgG, a.features.avgB)
    ensures a.fossil == FossilLikelihood(a.features.biomorphicIndex, a.features.normalizedEdge)
    ensures a.fossilDetails == FossilDetails(a.fossil, NumberToFixed(a.features.biomorphicIndex, 2))
    ensures a.roundness == RoundnessOf(a.features.normalizedEdge)
    ensures a.best < |Table| && a.archetype == Table[a.best]
    ensures IsFirstMin(Distances(ProbeOf(a.features, a.bias), Table, sqrt), a.best)
    ensures a.lowestDistance == Distance(ProbeOf(a.features, a.bias), Table[a.best], sqrt)
    ensures 15 <= a.confidence <= 45 && a.confidence == Confidence(a.lowestDistance)
  {
    var f := Extract(img, sqrt);
    var fossil := FossilLikelihood(f.biomorphicIndex, f.normalizedEdge);
    var details := FossilDetails(fossil, NumberToFixed(f.biomorphicIndex, 2));
    var bias := DetectBias(f.avgR, f.avgG, f.avgB);
    var (best, lowest) := BestMatch(ProbeOf(f, bias), sqrt);
    Analysis(f, bias, fossil, details, RoundnessOf(f.normalizedEdge), best, Table[best], lowest,
      Confidence(lowest))
  }

  /** The first line of every report the engine writes from an image. */
  const Marker: string := "[OFFLINE MODE: Advanced " + "Heuristic Preview]"

  function Head(): string
  {
    Marker + "\n"
  }

  /** Section 5's placer verdict: Moderate for an igneous match. */
  function PlacerLevel(name: string): string
  {
    if Includes(name, "Igneous") then "Moderate" else "Low"
  }

  /** Section 7's target: structural anomalies when a fossil signal was found. */
  function Target(fossil: Fossil): string
  {
    if fossil != Low then "structural anomalies" else "lithology"
  }

  function Body1(a: Analysis): string
  {
    "Identification Summary: Visual proxy " + "analysis identifies this specimen as "
      + a.archetype.name + ". " + a.archetype.description + "\n"
  }

  function Body2(): string
  {
    "Drainage & River Context: Local " + "sensors indicate fluvial environment. "
      + "Specific drainage hierarchy requires " + "Cloud Sync.\n"
  }

  /** The edge density as a percentage. */
  function Percent(x: real): (p: real)
    requires 0.0 <= x
    ensures 0.0 <= p
  {
    x * 100.0
  }

  function Body3(a: Analysis): string
    requires 0.0 <= a.features.normalizedEdge
  {
    "Transport History: Roundness index ("
      + Fixed(Percent(a.features.normalizedEdge), 1) + "%) suggests a "
      + RoundnessName(a.roundness) + " profile.\n"
  }

  /** The three channel averages rounded with `Math.round`. */
  function Rgb(a: Analysis): string
    requires 0.0 <= a.features.avgR && 0.0 <= a.features.avgG && 0.0 <= a.features.avgB
  {
    NatToString(Round(a.features.avgR)) + ", " + NatToString(Round(a.features.avgG)) + ", "
      + NatToString(Round(a.features.avgB))
  }

  /** Section 4's first line: the fossil verdict and its explanation. */
  function FossilLine(a: Analysis): string
  {
    "Fossil / Gem / Mineral Assessment:\n"
      + "   - Fossil Potential: " + FossilName(a.fossil) + ". " + a.fossilDetails
  }

  /** Section 4's mineral line: rounded channel averages and the bias. */
  function MineralLine(a: Analysis): string
    requires 0.0 <= a.features.avgR && 0.0 <= a.features.avgG && 0.0 <= a.features.avgB
  {
    "\n   - Mineral Signature: RGB(" + Rgb(a) + ") -> " + Upper(BiasName(a.bias)) + " BIAS"
  }

  /** Section 4's last line: the texture score with one decimal. */
  function GrainLine(a: Analysis): string
    requires 0.0 <= a.features.textureScore
  {
    "\n   - Grain Complexity: " + Fixed(a.features.textureScore, 1)
      + " SD (Structural Heterogeneity)\n"
  }

  function Body4(a: Analysis): string
    requires 0.0 <= a.features.avgR && 0.0 <= a.features.avgG && 0.0 <= a.features.avgB
    requires 0.0 <= a.features.textureScore
  {
    FossilLine(a) + MineralLine(a) + GrainLine(a)
  }

  function Body5(a: Analysis): string
  {
    "Economic Significance: Placer potential " + "restricted in offline mode. Heuristic "
      + "match suggests " + PlacerLevel(a.archetype.name)
      + " probability for associated heavy " + "minerals.\n"
  }

  function Body6(a: Analysis): string
    requires 0 <= a.confidence
  {
    "Confidence Level: " + NatToString(a.confidence) + "% (Archetype Variance Match).\n"
  }

  function Body7(a: Analysis): string
  {
    "Recommendations: Upload to Gemini 3 " + "Flash to perform high-resolution "
      + "feature extraction of identified " + Target(a.fossil) + "."
  }

  /** The analysis values the report prints are in the ranges `toFixed` and
      `String` are modelled on. */
  predicate Printable(a: Analysis)
  {
    && 0.0 <= a.features.avgR && 0.0 <= a.features.avgG && 0.0 <= a.features.avgB
    && 0.0 <= a.features.textureScore
    && 0.0 <= a.features.normalizedEdge
    && 0 <= a.confidence
  }

  /** The seven section bodies, in order. */
  function Bodies(a: Analysis): (bs: seq<string>)
    requires Printable(a)
    ensures |bs| == 7
  {
    [Body1(a), Body2(), Body3(a), Body4(a), Body5(a), Body6(a), Body7(a)]
  }

  /** Section bodies written one after another, each behind its number and
      ". ", counting from `k`. */
  function Numbered(bodies: seq<string>, k: nat): string
    decreases |bodies|
  {
    if |bodies| == 0 then "" else NatToString(k) + ". " + bodies[0] + Numbered(bodies[1..], k + 1)
  }

  /** The report layout: the marker line, then the bodies numbered from 1. */
  function Compose(bodies: seq<string>): (r: string)
    ensures MarkedOffline(r)
  {
    var rest := "\n" + Numbered(bodies, 1);
    PrefixOfConcat(Marker, rest);
    Marker + rest
  }

  /** `r` begins with the offline marker. */
  predicate MarkedOffline(r: string)
  {
    |Marker| < |r| && r[..|Marker|] == Marker
  }

  /** The report written from a decoded image. */
  function ImageReport(img: Image, sqrt: real -> real): (r: string)
    requires IsSqrt(sqrt)
    ensures MarkedOffline(r)
  {
    AnalysisPrintable(img, sqrt);
    Compose(Bodies(Analyze(img, sqrt)))
  }

  lemma AnalysisPrintable(img: Image, sqrt: real -> real)
    requires IsSqrt(sqrt)
    ensures Printable(Analyze(img, sqrt))
  {
  }

  /** How loading the field image ended: the canvas had no 2-D context, the
      image failed to load, or it was decoded and resampled to 128 x 128. */
  datatype Load = NoContext | LoadError | Loaded(img: Image)

  const NoContextText: string := "Offline mode active. No visual data " + "available."
  const LoadErrorText: string := "Error loading field image for local " + "edge-heuristic processing."

  /** Neither load-failure text begins with the offline marker. */
  lemma FailureTextsUnmarked()
    ensures !MarkedOffline(NoContextText) && !MarkedOffline(LoadErrorText)
    ensures NoContextText != "" && LoadErrorText != ""
  {
    assert NoContextText[0] != Marker[0];
    assert LoadErrorText[0] != Marker[0];
  }

  /** `runLocalHeuristic`: the text the promise resolves with. It never
      rejects; load failures resolve with a fixed message instead. */
  function RunLocalHeuristic(load: Load, sqrt: real -> real): (r: string)
    requires IsSqrt(sqrt)
    ensures load.Loaded? <==> MarkedOffline(r)
  {
    match load
    case NoContext => FailureTextsUnmarked(); NoContextText
    case LoadError => FailureTextsUnmarked(); LoadErrorText
    case Loaded(img) => ImageReport(img, sqrt)
  }

  /** The heuristic always resolves with some text. */
  lemma HeuristicNonEmpty(load: Load, sqrt: real -> real)
    requires IsSqrt(sqrt)
    ensures RunLocalHeuristic(load, sqrt) != ""
  {
    FailureTextsUnmarked();
  }

  /** `name` contains "Igneous" starting at `at`. */
  lemma IgneousAt(name: string, at: nat)
    requires at + 7 <= |name|
    requires forall i :: 0 <= i < 7 ==> name[at + i] == "Igneous"[i]
    ensures Includes(name, "Igneous")
  {
    assert name[at..at + 7] == "Igneous";
    assert OccursAt(name, "Igneous", at);
  }

  /** A name without a capital I cannot contain "Igneous". */
  lemma NotIgneous(name: string)
    requires 'I' !in name
    ensures !Includes(name, "Igneous")
  {
    MissingCharExcludes(name, "Igneous", 'I');
  }

  /** The sedimentary names have no capital I. */
  lemma SedimentaryNoCapitalI(n: string)
    requires || n == "Siliciclastic (Sandstone/Quartzite)"
             || n == "Microcrystalline (Chert/Jasper)"
    ensures 'I' !in n
  {
  }

  /** The metamorphic, ultramafic and ferruginous names have no capital I. */
  lemma OtherNoCapitalI(n: string)
    requires || n == "Metamorphic (Schist/Slate/Phyllite)"
             || n == "Ultramafic (Serpentinite)"
             || n == "Ferruginous / Gossanous Material"
    ensures 'I' !in n
  {
  }

  /** The five archetypes after the igneous pair have no capital I. */
  lemma NoCapitalI(k: nat)
    requires 2 <= k < |Table|
    ensures 'I' !in Table[k].name
  {
    if k < 4 {
      SedimentaryNoCapitalI(Table[k].name);
    } else {
      OtherNoCapitalI(Table[k].name);
    }
  }

  /** Only the two igneous archetypes contain "Igneous" in their names. */
  lemma IgneousNames(k: nat)
    requires k < |Table|
    ensures Includes(Table[k].name, "Igneous") <==> k < 2
  {
    var name := Table[k].name;
    if k == 0 {
      IgneousAt(name, 7);
    } else if k == 1 {
      IgneousAt(name, 6);
    } else {
      NoCapitalI(k);
      NotIgneous(name);
    }
  }

  /** Section 5 reports Moderate placer probability exactly for the felsic and
      mafic igneous matches. */
  lemma PlacerModerateIffIgneous(a: Analysis)
    requires a.best < |Table| && a.archetype == Table[a.best]
    ensures PlacerLevel(a.archetype.name) == "Moderate" <==> a.best < 2
  {
    IgneousNames(a.best);
  }

  /** Section 7 names structural anomalies exactly when the fossil tests
      found something: index above 1.2 with dense edges, or above 1.8. */
  lemma TargetIffFossilSignal(img: Image, sqrt: real -> real)
    requires IsSqrt(sqrt)
    ensures var f := Extract(img, sqrt);
      Target(Analyze(img, sqrt).fossil) == "structural anomalies"
      <==> (Exceeds(f.biomorphicIndex, 1.2) && f.normalizedEdge > 0.08) || Exceeds(f.biomorphicIndex, 1.8)
  {
  }

  /** A uniform image: no fossil signal, well rounded, zero texture, and the
      report asks to examine the lithology. */
  lemma UniformImageAnalysis(img: Image, sqrt: real -> real)
    requires IsSqrt(sqrt)
    requires Uniform(img)
    ensures Analyze(img, sqrt).fossil == Low
    ensures Analyze(img, sqrt).roundness == WellRounded
    ensures Analyze(img, sqrt).features.textureScore == 0.0
    ensures Target(Analyze(img, sqrt).fossil) == "lithology"
  {
    UniformFeatures(img, sqrt);
  }

  /** An all-black image matches the mafic archetype at confidence 40: its
      distance, about 0.41, is too large for the 45 cap to apply. */
  lemma BlackImageIsMafic(img: Image, sqrt: real -> real)
    requires IsSqrt(sqrt)
    requires Uniform(img) && img[0] == Black
    ensures Analyze(img, sqrt).best == 1
    ensures Analyze(img, sqrt).archetype == Mafic
    ensures Analyze(img, sqrt).confidence == 40
  {
    UniformFeatures(img, sqrt);
    var a := Analyze(img, sqrt);
    assert a.bias == Neutral;
    assert ProbeOf(a.features, a.bias) == BlackProbe;
    BlackProbeNearestMafic(sqrt);
    FirstMinUnique(Distances(BlackProbe, Table, sqrt), a.best, 1);
    ConfidenceForty(a.lowestDistance);
  }
}
