/** The fixed table of seven rock archetypes and the nearest-archetype matcher
    with its clamped confidence score. */
module Archetypes {
  import opened Numeric
  import opened Labels

  /** One archetype: a brightness band, a texture (luminance standard deviation)
      band, an edge-density band and an expected colour bias. */
  datatype Archetype = Archetype(
    name: string,
    minBrightness: real, maxBrightness: real,
    textureMin: real, textureMax: real,
    edgeMin: real, edgeMax: real,
    colorBias: ColorBias,
    description: string)

  const ArchetypeCount: nat := 7

  const Felsic: Archetype :=
    Archetype("Felsic Igneous (Granite/Rhyolite)", 150.0, 255.0, 40.0, 100.0, 0.06, 0.15, Neutral,
      "High-albedo crystalline structure " + "with visible phaneritic speckling.")
  const Mafic: Archetype :=
    Archetype("Mafic Igneous (Basalt/Gabbro)", 0.0, 80.0, 10.0, 45.0, 0.04, 0.12, Neutral,
      "Low-albedo, fine-grained " + "melanocratic composition.")
  const Siliciclastic: Archetype :=
    Archetype("Siliciclastic (Sandstone/Quartzite)", 120.0, 220.0, 20.0, 50.0, 0.03, 0.09, Neutral,
      "Granular sedimentary texture " + "with moderate fluvial rounding.")
  const Microcrystalline: Archetype :=
    Archetype("Microcrystalline (Chert/Jasper)", 80.0, 180.0, 5.0, 25.0, 0.12, 0.25, Red,
      "Dense, non-granular silica " + "with sharp edge retention.")
  const Metamorphic: Archetype :=
    Archetype("Metamorphic (Schist/Slate/Phyllite)", 50.0, 140.0, 30.0, 70.0, 0.10, 0.20, Blue,
      "Foliated or slaty cleavage planes " + "creating linear edge artifacts.")
  const Ultramafic: Archetype :=
    Archetype("Ultramafic (Serpentinite)", 60.0, 130.0, 15.0, 40.0, 0.05, 0.13, Green,
      "Low-to-mid albedo with characteristic " + "waxy luster and greenish hue.")
  const Ferruginous: Archetype :=
    Archetype("Ferruginous / Gossanous Material", 60.0, 150.0, 30.0, 80.0, 0.08, 0.18, Red,
      "Oxidized iron-rich crusting or " + "staining on parent lithology.")

  /** `ARCHETYPES`, in table order. */
  const Table: seq<Archetype> :=
    [Felsic, Mafic, Siliciclastic, Microcrystalline, Metamorphic, Ultramafic, Ferruginous]

  /** What the matcher reads from the features. */
  datatype Probe = Probe(avgGray: real, textureScore: real, normalizedEdge: real, bias: ColorBias)

  /** The bias penalty: 0 when the detected bias is the archetype's, else 0.5. */
  function BiasPenalty(p: Probe, a: Archetype): (d: real)
    ensures d == 0.0 || d == 0.5
    ensures d == 0.0 <==> p.bias == a.colorBias
  {
    if p.bias == a.colorBias then 0.0 else 0.5
  }

  /** The squared, scaled distance of the probe from the centres of the
      archetype's bands: brightness over 255, texture over 100, edges over 0.3. */
  function SquaredOffset(p: Probe, a: Archetype): (s: real)
    ensures 0.0 <= s
  {
    var dBr := Abs(p.avgGray - (a.minBrightness + a.maxBrightness) / 2.0) / 255.0;
    var dTx := Abs(p.textureScore - (a.textureMin + a.textureMax) / 2.0) / 100.0;
    var dEd := Abs(p.normalizedEdge - (a.edgeMin + a.edgeMax) / 2.0) / 0.3;
    dBr * dBr + dTx * dTx + dEd * dEd
  }

  /** `distance`: Euclidean offset plus bias penalty; `sqrt` is `Math.sqrt`. */
  function Distance(p: Probe, a: Archetype, sqrt: real -> real): (d: real)
    requires IsSqrt(sqrt)
    ensures BiasPenalty(p, a) <= d
    ensures IsRootOf(d - BiasPenalty(p, a), SquaredOffset(p, a))
  {
    sqrt(SquaredOffset(p, a)) + BiasPenalty(p, a)
  }

  /** Distances of the probe from every table entry, in table order. */
  function Distances(p: Probe, table: seq<Archetype>, sqrt: real -> real): (ds: seq<real>)
    requires IsSqrt(sqrt)
    ensures |ds| == |table|
    ensures forall k :: 0 <= k < |table| ==> ds[k] == Distance(p, table[k], sqrt)
  {
    seq(|table|, k requires 0 <= k < |table| => Distance(p, table[k], sqrt))
  }

  /** `best` holds a smallest distance, and every earlier entry is strictly
      larger: the first minimum. */
  predicate IsFirstMin(ds: seq<real>, best: nat)
  {
    && best < |ds|
    && (forall j :: 0 <= j < |ds| ==> ds[best] <= ds[j])
    && (forall j :: 0 <= j < best ==> ds[best] < ds[j])
  }

  /** `lowestDistance < distance` with `lowestDistance` starting at Infinity. */
  predicate Below(d: real, lowest: Number)
  {
    match lowest
    case Finite(v) => d < v
    case PosInf => true
    case _ => false
  }

  /** The `forEach` over the table from entry k on, carrying the best index
      and the lowest distance so far; replacement only on a strict `<`. */
  function Scan(ds: seq<real>, k: nat, best: nat, lowest: Number): (r: (nat, Number))
    requires k <= |ds|
    requires k == 0 ==> lowest == PosInf && best == 0
    requires 0 < k ==> IsFirstMin(ds[..k], best) && lowest == Finite(ds[best])
    requires 0 < |ds|
    ensures IsFirstMin(ds, r.0) && r.1 == Finite(ds[r.0])
    decreases |ds| - k
  {
    if k == |ds| then
      assert ds[..k] == ds;
      (best, lowest)
    else if Below(ds[k], lowest) then
      assert ds[..k + 1][..k] == ds[..k];
      Scan(ds, k + 1, k, Finite(ds[k]))
    else
      assert ds[..k + 1][..k] == ds[..k];
      Scan(ds, k + 1, best, lowest)
  }

  /** The matcher: index of the chosen archetype and `lowestDistance`. */
  function BestMatch(p: Probe, sqrt: real -> real): (r: (nat, real))
    requires IsSqrt(sqrt)
    ensures r.0 < ArchetypeCount && r.0 < |Table|
    ensures IsFirstMin(Distances(p, Table, sqrt), r.0)
    ensures r.1 == Distance(p, Table[r.0], sqrt)
  {
    var ds := Distances(p, Table, sqrt);
    var (best, lowest) := Scan(ds, 0, 0, PosInf);
    (best, lowest.value)
  }

  /** The first minimum is unique: any index with the two defining properties
      is the matcher's choice, so ties go to the earlier table entry. */
  lemma FirstMinUnique(ds: seq<real>, i: nat, j: nat)
    requires IsFirstMin(ds, i) && IsFirstMin(ds, j)
    ensures i == j
  {
    assert ds[i] <= ds[j] && ds[j] <= ds[i];
  }

  /** `Math.max(15, Math.min(45, Math.round((1 - d / 2) * 50)))`. */
  function Confidence(d: real): (c: int)
    ensures 15 <= c <= 45
  {
    Clamp(15, 45, Round((1.0 - d / 2.0) * 50.0))
  }

  /** What the matcher reads from a black image: zero brightness, texture and
      edges, and no colour bias. */
  const BlackProbe: Probe := Probe(0.0, 0.0, 0.0, Neutral)

  /** A black probe lies about 0.41 from the mafic entry: nearer than the two
      other neutral entries, and nearer than the 0.5 bias penalty every
      coloured entry pays. */
  lemma {:induction false} BlackProbeNearestMafic(sqrt: real -> real)
    requires IsSqrt(sqrt)
    ensures IsFirstMin(Distances(BlackProbe, Table, sqrt), 1)
    ensures 0.38 < Distance(BlackProbe, Mafic, sqrt) < 0.42
  {
    var p := BlackProbe;
    var m := SquaredOffset(p, Mafic);
    assert m == (40.0 / 255.0) * (40.0 / 255.0) + 0.275 * 0.275 + (0.08 / 0.3) * (0.08 / 0.3);
    SqrtBelow(sqrt, m, 0.42);
    SqrtAbove(sqrt, m, 0.38);
    SqrtAbove(sqrt, SquaredOffset(p, Felsic), 0.5);
    SqrtAbove(sqrt, SquaredOffset(p, Siliciclastic), 0.5);
  }

  /** Distances strictly between 0.38 and 0.42 all round to confidence 40. */
  lemma ConfidenceForty(d: real)
    requires 0.38 < d < 0.42
    ensures Confidence(d) == 40
  {
    assert 39.5 < (1.0 - d / 2.0) * 50.0 < 40.5;
  }

  /** Close matches saturate at 45 and distant ones at 15. */
  lemma ConfidenceSaturates(d: real)
    ensures d <= 0.2 ==> Confidence(d) == 45
    ensures 1.4 <= d ==> Confidence(d) == 15
  {
  }

  /** A larger distance never raises the confidence. */
  lemma ConfidenceMonotone(d1: real, d2: real)
    requires d1 <= d2
    ensures Confidence(d2) <= Confidence(d1)
  {
    assert (1.0 - d2 / 2.0) * 50.0 <= (1.0 - d1 / 2.0) * 50.0;
  }
}
