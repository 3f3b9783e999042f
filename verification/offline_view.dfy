/** The format contract between the offline report composer and the result
    view's splitter: the view cuts an offline report into the marker line and
    the seven section bodies, in order. */
module OfflineView {
  import opened Numeric
  import opened Text
  import opened Pixels
  import opened Labels
  import opened Archetypes
  import opened Report
  import opened Sections

  /** A body the splitter hands back unchanged: non-empty, free of
      delimiters, and not starting with whitespace a delimiter would swallow. */
  predicate Splittable(b: string)
  {
    b != "" && NoDelim(b) && !IsSpace(b[0])
  }

  // Numerals

  lemma DigitsNumeral(s: string)
    requires 0 < |s| && AllDigits(s)
    ensures Numeral(s)
  {
    assert forall i :: 0 <= i < |s| ==> !DelimAt(s, i) by {
      forall i | 0 <= i < |s|
        ensures !DelimAt(s, i)
      {
        if i + 1 < |s| {
          assert IsDigit(s[i + 1]);
        }
      }
    }
  }

  /** `String(n)` is a numeral. */
  lemma NatNumeral(n: nat)
    ensures Numeral(NatToString(n))
  {
    DigitsNumeral(NatToString(n));
  }

  /** Digits, a point and digits: the point is followed by a digit, so no
      delimiter matches. */
  lemma PointNumeral(w: string, f: string)
    requires 0 < |w| && AllDigits(w) && 0 < |f| && AllDigits(f)
    ensures Numeral(w + "." + f)
  {
    var t := w + "." + f;
    forall i | 0 <= i < |t|
      ensures !DelimAt(t, i)
    {
      if i + 2 < |t| {
        if i + 1 < |w| {
          assert t[i + 1] == w[i + 1];
        } else if i + 1 == |w| {
          assert t[i + 2] == f[0];
        } else {
          assert t[i + 1] == f[i - |w|];
        }
      }
    }
    assert t[0] == w[0];
    assert t[|t| - 1] == f[|f| - 1];
  }

  /** `toFixed(d)` writes a numeral. */
  lemma FixedNumeral(x: real, d: nat)
    requires 0.0 <= x
    ensures Numeral(Fixed(x, d))
  {
    var s := Fixed(x, d);
    if d == 0 {
      DigitsNumeral(s);
    } else {
      var p := |s| - d - 1;
      assert s == s[..p] + "." + s[p + 1..];
      PointNumeral(s[..p], s[p + 1..]);
    }
  }

  /** The three rounded channel averages form one numeral-bounded run. */
  lemma RgbNumeral(a: Analysis)
    requires 0.0 <= a.features.avgR && 0.0 <= a.features.avgG && 0.0 <= a.features.avgB
    ensures Numeral(Rgb(a))
  {
    var r, g, b := NatToString(Round(a.features.avgR)), NatToString(Round(a.features.avgG)),
                   NatToString(Round(a.features.avgB));
    NatNumeral(Round(a.features.avgR));
    NatNumeral(Round(a.features.avgG));
    NatNumeral(Round(a.features.avgB));
    SepLiterals();
    NumeralJoins("", r, ", ");
    NoDelimConcat(r, ", ");
    NumeralJoins(r + ", ", g, ", ");
    NoDelimConcat(r + ", ", g);
    NoDelimConcat(r + ", " + g, ", ");
    NumeralJoins(r + ", " + g + ", ", b, "");
    NoDelimConcat(r + ", " + g + ", ", b);
    assert Rgb(a) == r + ", " + g + ", " + b;
    assert Rgb(a)[0] == r[0];
    assert Rgb(a)[|Rgb(a)| - 1] == b[|b| - 1];
  }

  // The fixed prose of the report, a few literals at a time

  lemma SepLiterals()
    ensures DigitFree(", ") && DigitFree(". ") && DigitFree("\n") && DigitFree(".")
  {
  }

  lemma HeadLiterals()
    ensures DigitFree("[OFFLINE MODE: Advanced ") && DigitFree("Heuristic Preview]")
  {
  }

  lemma Body1Literals()
    ensures DigitFree("Identification Summary: Visual proxy ")
    ensures DigitFree("analysis identifies this specimen as ")
  {
  }

  lemma Body2LiteralsA()
    ensures DigitFree("Drainage & River Context: Local ")
    ensures DigitFree("sensors indicate fluvial environment. ")
  {
  }

  lemma Body2LiteralsB()
    ensures DigitFree("Specific drainage hierarchy requires ")
    ensures DigitFree("Cloud Sync.\n")
  {
  }

  lemma Body3Literals()
    ensures DigitFree("Transport History: Roundness index (") && !IsSpace('T') && '%' != '.'
    ensures DigitFree("%) suggests a ") && DigitFree(" profile.\n")
  {
  }

  lemma Body4LiteralsA()
    ensures DigitFree("Fossil / Gem / Mineral Assessment:\n")
    ensures DigitFree("   - Fossil Potential: ")
  {
  }

  lemma Body4LiteralsB()
    ensures DigitFree("\n   - Mineral Signature: RGB(")
    ensures DigitFree(") -> ") && DigitFree(" BIAS")
  {
  }

  lemma Body4LiteralsC()
    ensures DigitFree("\n   - Grain Complexity: ")
    ensures DigitFree(" SD (Structural Heterogeneity)\n")
  {
  }

  lemma Body5LiteralsA()
    ensures DigitFree("Economic Significance: Placer potential ")
    ensures DigitFree("restricted in offline mode. Heuristic ")
  {
  }

  lemma Body5LiteralsB()
    ensures DigitFree("match suggests ")
    ensures DigitFree(" probability for associated heavy ")
    ensures DigitFree("minerals.\n")
  {
  }

  lemma Body6Literals()
    ensures DigitFree("Confidence Level: ")
    ensures DigitFree("% (Archetype Variance Match).\n")
  {
  }

  lemma Body7LiteralsA()
    ensures NoDelim("Recommendations: Upload to Gemini 3 ")
  {
  }

  lemma Body7LiteralsB()
    ensures DigitFree("Flash to perform high-resolution ")
    ensures DigitFree("feature extraction of identified ")
  {
  }

  lemma FossilLowLiterals()
    ensures DigitFree("No significant localized structural ")
    ensures DigitFree("anomalies detected.")
  {
  }

  lemma FossilModerateLiteralsA()
    ensures DigitFree("Detected localized edge clusters (BCI: ")
  {
  }

  lemma FossilModerateLiteralsB()
    ensures DigitFree(") consistent with potential biomorphic ")
    ensures DigitFree("imprints or trace fossil structures.")
  {
  }

  lemma FossilHighLiteralsA()
    ensures DigitFree("Strong spatial complexity anomalies ")
    ensures DigitFree("detected. Highly suggestive of ")
  {
  }

  lemma FossilHighLiteralsB()
    ensures DigitFree("repetitive biological structures or ")
    ensures DigitFree("intricate mineralized imprints.")
  {
  }

  // The archetype table

  lemma FelsicLiteralsA()
    ensures DigitFree("Felsic Igneous (Granite/Rhyolite)")
    ensures DigitFree("High-albedo crystalline structure ")
  {
  }

  lemma FelsicLiteralsB()
    ensures DigitFree("with visible phaneritic speckling.")
  {
  }

  lemma MaficLiteralsA()
    ensures DigitFree("Mafic Igneous (Basalt/Gabbro)")
    ensures DigitFree("Low-albedo, fine-grained ")
  {
  }

  lemma MaficLiteralsB()
    ensures DigitFree("melanocratic composition.")
  {
  }

  lemma SiliciclasticLiteralsA()
    ensures DigitFree("Siliciclastic (Sandstone/Quartzite)")
    ensures DigitFree("Granular sedimentary texture ")
  {
  }

  lemma SiliciclasticLiteralsB()
    ensures DigitFree("with moderate fluvial rounding.")
  {
  }

  lemma MicrocrystallineLiteralsA()
    ensures DigitFree("Microcrystalline (Chert/Jasper)")
    ensures DigitFree("Dense, non-granular silica ")
  {
  }

  lemma MicrocrystallineLiteralsB()
    ensures DigitFree("with sharp edge retention.")
  {
  }

  lemma MetamorphicLiteralsA()
    ensures DigitFree("Metamorphic (Schist/Slate/Phyllite)")
    ensures DigitFree("Foliated or slaty cleavage planes ")
  {
  }

  lemma MetamorphicLiteralsB()
    ensures DigitFree("creating linear edge artifacts.")
  {
  }

  lemma UltramaficLiteralsA()
    ensures DigitFree("Ultramafic (Serpentinite)")
    ensures DigitFree("Low-to-mid albedo with characteristic ")
  {
  }

  lemma UltramaficLiteralsB()
    ensures DigitFree("waxy luster and greenish hue.")
  {
  }

  lemma FerruginousLiteralsA()
    ensures DigitFree("Ferruginous / Gossanous Material")
    ensures DigitFree("Oxidized iron-rich crusting or ")
  {
  }

  lemma FerruginousLiteralsB()
    ensures DigitFree("staining on parent lithology.")
  {
  }

  /** No archetype name or description contains a digit. */
  lemma TableDigitFree(k: nat)
    requires k < |Table|
    ensures DigitFree(Table[k].name) && DigitFree(Table[k].description)
  {
    var e := Table[k];
    if k == 0 {
      FelsicLiteralsA();
      FelsicLiteralsB();
      DigitFreeConcat("High-albedo crystalline structure ", "with visible phaneritic speckling.");
    } else if k == 1 {
      MaficLiteralsA();
      MaficLiteralsB();
      DigitFreeConcat("Low-albedo, fine-grained ", "melanocratic composition.");
    } else if k == 2 {
      SiliciclasticLiteralsA();
      SiliciclasticLiteralsB();
      DigitFreeConcat("Granular sedimentary texture ", "with moderate fluvial rounding.");
    } else if k == 3 {
      MicrocrystallineLiteralsA();
      MicrocrystallineLiteralsB();
      DigitFreeConcat("Dense, non-granular silica ", "with sharp edge retention.");
    } else if k == 4 {
      MetamorphicLiteralsA();
      MetamorphicLiteralsB();
      DigitFreeConcat("Foliated or slaty cleavage planes ", "creating linear edge artifacts.");
    } else if k == 5 {
      UltramaficLiteralsA();
      UltramaficLiteralsB();
      DigitFreeConcat("Low-to-mid albedo with characteristic ", "waxy luster and greenish hue.");
    } else {
      FerruginousLiteralsA();
      FerruginousLiteralsB();
      DigitFreeConcat("Oxidized iron-rich crusting or ", "staining on parent lithology.");
    }
  }

  // The label texts

  lemma FossilNameDigitFree(f: Fossil)
    ensures DigitFree(FossilName(f)) && 2 <= |FossilName(f)|
  {
  }

  lemma RoundedLiterals()
    ensures DigitFree("Well-rounded (High-Energy Fluvial)")
  {
  }

  lemma SubRoundedLiterals()
    ensures DigitFree("Sub-rounded")
  {
  }

  lemma SubAngularLiterals()
    ensures DigitFree("Sub-angular (Local Colluvial)")
  {
  }

  lemma AngularLiterals()
    ensures DigitFree("Angular / Fractured ") && DigitFree("(In-situ / Brecciated)")
  {
  }

  lemma RoundnessNameDigitFree(r: Roundness)
    ensures DigitFree(RoundnessName(r)) && 2 <= |RoundnessName(r)|
  {
    match r
    case WellRounded => RoundedLiterals();
    case SubRounded => SubRoundedLiterals();
    case SubAngular => SubAngularLiterals();
    case Angular =>
      AngularLiterals();
      DigitFreeConcat("Angular / Fractured ", "(In-situ / Brecciated)");
  }

  /** Upper-casing introduces no digit. */
  lemma UpperDigitFree(s: string)
    requires DigitFree(s)
    ensures DigitFree(Upper(s)) && |Upper(s)| == |s|
  {
    var u := Upper(s);
    forall i | 0 <= i < |s|
      ensures !IsDigit(u[i])
    {
      assert u[i] == UpperChar(s[i]);
    }
  }

  lemma BiasTextDigitFree(b: ColorBias)
    ensures DigitFree(Upper(BiasName(b))) && 2 <= |Upper(BiasName(b))|
  {
    UpperDigitFree(BiasName(b));
  }

  lemma PlacerTargetDigitFree(name: string, f: Fossil)
    ensures DigitFree(PlacerLevel(name))
    ensures DigitFree(Target(f))
  {
  }

  /** Text that has no delimiter and ends in two non-digits: whatever follows
      it, no delimiter straddles the seam. */
  predicate Tidy(t: string)
  {
    NoDelim(t) && EndsInText(t)
  }

  lemma Prose(t: string)
    requires DigitFree(t) && 2 <= |t|
    ensures Tidy(t)
  {
    DigitFreeJoins(t, "");
    DigitFreeEndsInText(t);
  }

  lemma Append(p: string, t: string)
    requires Tidy(p) && Tidy(t)
    ensures Tidy(p + t)
  {
    EndsInTextJoins(p, t);
    NoDelimConcat(p, t);
    EndsInTextConcat(p, t);
  }

  /** A numeral between a delimiter-free text and tidy text that does not open
      with a full stop. */
  lemma AppendNumeral(p: string, n: string, t: string)
    requires NoDelim(p) && Numeral(n) && Tidy(t) && t[0] != '.'
    ensures Tidy(p + n + t)
  {
    NumeralJoins(p, n, t);
    NoDelimConcat(p, n);
    NoDelimConcat(p + n, t);
    EndsInTextConcat(p + n, t);
  }

  /** The quoted index of a Moderate verdict: a numeral, or `Infinity`. */
  lemma QuotedIndex(n: Number)
    requires Exceeds(n, 1.2)
    ensures Numeral(NumberToFixed(n, 2)) || Tidy(NumberToFixed(n, 2))
  {
    if n.Finite? {
      FixedNumeral(n.value, 2);
    } else {
      assert NumberToFixed(n, 2) == "Infinity";
      Prose("Infinity");
    }
  }

  /** The fossil explanation is tidy, provided the index a Moderate verdict
      quotes is a numeral or tidy text. */
  lemma DetailsShape(f: Fossil, bci: string)
    requires f == Moderate ==> Numeral(bci) || Tidy(bci)
    ensures Tidy(FossilDetails(f, bci))
  {
    match f
    case Low =>
      FossilLowLiterals();
      var x, y := "No significant localized structural ", "anomalies detected.";
      Prose(x);
      Prose(y);
      Append(x, y);
    case Moderate =>
      FossilModerateLiteralsA();
      FossilModerateLiteralsB();
      var x, y, z := "Detected localized edge clusters (BCI: ", ") consistent with potential biomorphic ",
                     "imprints or trace fossil structures.";
      Prose(x);
      Prose(y);
      Prose(z);
      if Numeral(bci) {
        AppendNumeral(x, bci, y);
      } else {
        Append(x, bci);
        Append(x + bci, y);
      }
      Append(x + bci + y, z);
    case HighPreliminary =>
      FossilHighLiteralsA();
      FossilHighLiteralsB();
      var w, x, y, z := "Strong spatial complexity anomalies ", "detected. Highly suggestive of ",
                        "repetitive biological structures or ", "intricate mineralized imprints.";
      DigitFreeConcat(w, x);
      DigitFreeConcat(w + x, y);
      DigitFreeConcat(w + x + y, z);
      Prose(w + x + y + z);
  }

  lemma AnalysisDetails(img: Image, sqrt: real -> real)
    requires IsSqrt(sqrt)
    ensures Tidy(Analyze(img, sqrt).fossilDetails)
  {
    var a := Analyze(img, sqrt);
    if a.fossil == Moderate {
      QuotedIndex(a.features.biomorphicIndex);
    }
    DetailsShape(a.fossil, NumberToFixed(a.features.biomorphicIndex, 2));
  }

  // The seven bodies

  lemma Body1Splittable(a: Analysis)
    requires DigitFree(a.archetype.name) && DigitFree(a.archetype.description)
    ensures Splittable(Body1(a))
  {
    var l1, l2 := "Identification Summary: Visual proxy ", "analysis identifies this specimen as ";
    var name, description := a.archetype.name, a.archetype.description;
    Body1Literals();
    SepLiterals();
    DigitFreeConcat(l1, l2);
    DigitFreeConcat(l1 + l2, name);
    DigitFreeConcat(l1 + l2 + name, ". ");
    DigitFreeConcat(l1 + l2 + name + ". ", description);
    DigitFreeConcat(l1 + l2 + name + ". " + description, "\n");
    var b := l1 + l2 + name + ". " + description + "\n";
    assert Body1(a) == b;
    DigitFreeJoins(b, "");
    assert b[0] == l1[0];
  }

  lemma Body2Splittable()
    ensures Splittable(Body2())
  {
    var l1, l2 := "Drainage & River Context: Local ", "sensors indicate fluvial environment. ";
    var l3, l4 := "Specific drainage hierarchy requires ", "Cloud Sync.\n";
    Body2LiteralsA();
    Body2LiteralsB();
    DigitFreeConcat(l1, l2);
    DigitFreeConcat(l1 + l2, l3);
    DigitFreeConcat(l1 + l2 + l3, l4);
    var b := l1 + l2 + l3 + l4;
    DigitFreeJoins(b, "");
    assert b[0] == l1[0];
  }

  /** Prose, a numeral, then tidy text that does not open with a full stop. */
  lemma QuotedNumeral(l1: string, n: string, rest: string)
    requires DigitFree(l1) && 2 <= |l1| && !IsSpace(l1[0])
    requires Numeral(n) && Tidy(rest) && rest[0] != '.'
    ensures Splittable(l1 + n + rest)
  {
    DigitFreeJoins(l1, "");
    AppendNumeral(l1, n, rest);
    assert (l1 + n + rest)[0] == l1[0];
  }

  /** Prose, a numeral, then tidy text made of three pieces. */
  lemma NumeralSentence(l1: string, n: string, l2: string, name: string, l3: string)
    requires DigitFree(l1) && 2 <= |l1| && !IsSpace(l1[0])
    requires Numeral(n)
    requires DigitFree(l2) && 2 <= |l2| && l2[0] != '.'
    requires DigitFree(name) && 2 <= |name|
    requires DigitFree(l3) && 2 <= |l3|
    ensures Splittable(l1 + n + l2 + name + l3)
  {
    Prose(l1);
    Prose(l2);
    Prose(name);
    Prose(l3);
    AppendNumeral(l1, n, l2);
    Append(l1 + n + l2, name);
    Append(l1 + n + l2 + name, l3);
    assert (l1 + n + l2 + name + l3)[0] == l1[0];
  }

  lemma Body3Splittable(a: Analysis)
    requires 0.0 <= a.features.normalizedEdge
    ensures Splittable(Body3(a))
  {
    Body3Literals();
    RoundnessNameDigitFree(a.roundness);
    FixedNumeral(Percent(a.features.normalizedEdge), 1);
    NumeralSentence("Transport History: Roundness index (", Fixed(Percent(a.features.normalizedEdge), 1),
      "%) suggests a ", RoundnessName(a.roundness), " profile.\n");
  }

  lemma FossilLineTidy(a: Analysis)
    requires Tidy(a.fossilDetails)
    ensures Tidy(FossilLine(a)) && FossilLine(a)[0] == 'F'
  {
    var l1, l2 := "Fossil / Gem / Mineral Assessment:\n", "   - Fossil Potential: ";
    var name := FossilName(a.fossil);
    Body4LiteralsA();
    SepLiterals();
    FossilNameDigitFree(a.fossil);
    DigitFreeConcat(l1, l2);
    DigitFreeConcat(l1 + l2, name);
    DigitFreeConcat(l1 + l2 + name, ". ");
    Prose(l1 + l2 + name + ". ");
    Append(l1 + l2 + name + ". ", a.fossilDetails);
    var b := l1 + l2 + name + ". " + a.fossilDetails;
    assert FossilLine(a) == b;
    assert b[0] == l1[0];
  }

  lemma MineralLineTidy(a: Analysis)
    requires 0.0 <= a.features.avgR && 0.0 <= a.features.avgG && 0.0 <= a.features.avgB
    ensures Tidy(MineralLine(a))
  {
    var l1, l2, l3 := "\n   - Mineral Signature: RGB(", ") -> ", " BIAS";
    var n, bias := Rgb(a), Upper(BiasName(a.bias));
    Body4LiteralsB();
    RgbNumeral(a);
    BiasTextDigitFree(a.bias);
    Prose(l2);
    Prose(l3);
    Prose(bias);
    DigitFreeJoins(l1, "");
    AppendNumeral(l1, n, l2);
    Append(l1 + n + l2, bias);
    Append(l1 + n + l2 + bias, l3);
    assert MineralLine(a) == l1 + n + l2 + bias + l3;
  }

  lemma GrainLineTidy(a: Analysis)
    requires 0.0 <= a.features.textureScore
    ensures Tidy(GrainLine(a))
  {
    var l1, l2 := "\n   - Grain Complexity: ", " SD (Structural Heterogeneity)\n";
    var n := Fixed(a.features.textureScore, 1);
    Body4LiteralsC();
    FixedNumeral(a.features.textureScore, 1);
    DigitFreeJoins(l1, "");
    Prose(l2);
    AppendNumeral(l1, n, l2);
    assert GrainLine(a) == l1 + n + l2;
  }

  lemma Body4Splittable(a: Analysis)
    requires 0.0 <= a.features.avgR && 0.0 <= a.features.avgG && 0.0 <= a.features.avgB
    requires 0.0 <= a.features.textureScore
    requires Tidy(a.fossilDetails)
    ensures Splittable(Body4(a))
  {
    FossilLineTidy(a);
    MineralLineTidy(a);
    GrainLineTidy(a);
    Append(FossilLine(a), MineralLine(a));
    Append(FossilLine(a) + MineralLine(a), GrainLine(a));
  }

  lemma Body5Splittable(a: Analysis)
    ensures Splittable(Body5(a))
  {
    var l1, l2 := "Economic Significance: Placer potential ", "restricted in offline mode. Heuristic ";
    var l3, l4, l5 := "match suggests ", " probability for associated heavy ", "minerals.\n";
    var level := PlacerLevel(a.archetype.name);
    Body5LiteralsA();
    Body5LiteralsB();
    PlacerTargetDigitFree(a.archetype.name, a.fossil);
    DigitFreeConcat(l1, l2);
    DigitFreeConcat(l1 + l2, l3);
    DigitFreeConcat(l1 + l2 + l3, level);
    DigitFreeConcat(l1 + l2 + l3 + level, l4);
    DigitFreeConcat(l1 + l2 + l3 + level + l4, l5);
    var b := l1 + l2 + l3 + level + l4 + l5;
    assert Body5(a) == b;
    DigitFreeJoins(b, "");
    assert b[0] == l1[0];
  }

  lemma Body6Splittable(a: Analysis)
    requires 0 <= a.confidence
    ensures Splittable(Body6(a))
  {
    var l1, l2 := "Confidence Level: ", "% (Archetype Variance Match).\n";
    var n := NatToString(a.confidence);
    Body6Literals();
    NatNumeral(a.confidence);
    DigitFreeJoins(l1, "");
    Prose(l2);
    AppendNumeral(l1, n, l2);
    var b := l1 + n + l2;
    assert Body6(a) == b;
    assert b[0] == l1[0];
  }

  lemma Body7Splittable(a: Analysis)
    ensures Splittable(Body7(a))
  {
    var l1, l2, l3 := "Recommendations: Upload to Gemini 3 ", "Flash to perform high-resolution ",
                      "feature extraction of identified ";
    var target := Target(a.fossil);
    Body7LiteralsA();
    Body7LiteralsB();
    PlacerTargetDigitFree("", a.fossil);
    SepLiterals();
    assert l1[|l1| - 1] == ' ';
    assert SafeJoin(l1, l2);
    DigitFreeJoins(l2, "");
    NoDelimConcat(l1, l2);
    DigitFreeConcat(l2, l3);
    DigitFreeConcat(l2 + l3, target);
    assert l1 + l2 + l3 + target == l1 + (l2 + l3 + target);
    DigitFreeJoins(l2 + l3 + target, "");
    NoDelimConcat(l1, l2 + l3 + target);
    DigitFreeEndsInText(l2 + l3 + target);
    EndsInTextConcat(l1, l2 + l3 + target);
    EndsInTextJoins(l1 + l2 + l3 + target, ".");
    DigitFreeJoins(".", "");
    NoDelimConcat(l1 + l2 + l3 + target, ".");
    var b := l1 + l2 + l3 + target + ".";
    assert Body7(a) == b;
    assert b[0] == l1[0];
  }

  // Numbering and splitting

  /** A numbered run starts with the digit of its first number. */
  lemma NumberedStart(bodies: seq<string>, k: nat)
    requires 0 < |bodies| && k < 10
    ensures 0 < |Numbered(bodies, k)| && Numbered(bodies, k)[0] == DigitChar(k)
  {
  }

  /** The splitter undoes the numbering: one empty piece before the first
      delimiter, then the bodies, in order. */
  lemma {:induction false} NumberedSplit(bodies: seq<string>, k: nat)
    requires 0 < |bodies| && k + |bodies| <= 10
    requires forall i :: 0 <= i < |bodies| ==> Splittable(bodies[i])
    ensures SplitRaw(Numbered(bodies, k)) == [""] + bodies
    decreases |bodies|
  {
    var b, tail := bodies[0], Numbered(bodies[1..], k + 1);
    var c := DigitChar(k);
    assert Numbered(bodies, k) == [c] + "." + " " + (b + tail);
    assert (b + tail)[0] == b[0];
    SplitAtDelim(c, " ", b + tail);
    if |bodies| == 1 {
      assert tail == "";
      assert b + tail == b;
      SplitJoin(b, "");
      assert SplitRaw(b) == [b];
      assert [b] == bodies;
    } else {
      NumberedStart(bodies[1..], k + 1);
      SplitJoin(b, tail);
      NumberedSplit(bodies[1..], k + 1);
      assert SplitRaw(b + tail) == [b] + bodies[1..];
      assert [b] + bodies[1..] == bodies;
    }
  }

  lemma HeadNoDelim()
    ensures NoDelim(Head()) && 0 < |Head()|
  {
    HeadLiterals();
    SepLiterals();
    DigitFreeConcat("[OFFLINE MODE: Advanced ", "Heuristic Preview]");
    DigitFreeConcat(Marker, "\n");
    DigitFreeJoins(Head(), "");
  }

  /** The view splits a composed report into the marker line and the bodies. */
  lemma ComposeSplit(bodies: seq<string>)
    requires 0 < |bodies| && |bodies| <= 9
    requires forall i :: 0 <= i < |bodies| ==> Splittable(bodies[i])
    ensures Split(Compose(bodies)) == [Head()] + bodies
  {
    var n := Numbered(bodies, 1);
    assert Compose(bodies) == Head() + n;
    HeadNoDelim();
    NumberedStart(bodies, 1);
    SplitJoin(Head(), n);
    NumberedSplit(bodies, 1);
    assert SplitRaw(Head() + n) == [Head()] + bodies;
    NonEmptyKeeps([Head()] + bodies);
  }

  /** The conditions under which every body survives the split: printable
      values, a tidy fossil explanation and a digit-free archetype. */
  predicate Renderable(a: Analysis)
  {
    && Printable(a) && Tidy(a.fossilDetails)
    && DigitFree(a.archetype.name) && DigitFree(a.archetype.description)
  }

  /** The view splits a composed seven-section report into the marker line
      and the seven bodies. */
  lemma ComposeSplitSeven(b1: string, b2: string, b3: string, b4: string, b5: string, b6: string, b7: string)
    requires Splittable(b1) && Splittable(b2) && Splittable(b3) && Splittable(b4)
    requires Splittable(b5) && Splittable(b6) && Splittable(b7)
    ensures Split(Compose([b1, b2, b3, b4, b5, b6, b7])) == [Head()] + [b1, b2, b3, b4, b5, b6, b7]
  {
    ComposeSplit([b1, b2, b3, b4, b5, b6, b7]);
  }

  /** Every body the engine writes survives the split unchanged. */
  lemma BodiesSplittable(a: Analysis)
    requires Renderable(a)
    ensures Splittable(Body1(a)) && Splittable(Body2()) && Splittable(Body3(a)) && Splittable(Body4(a))
    ensures Splittable(Body5(a)) && Splittable(Body6(a)) && Splittable(Body7(a))
  {
    Body1Splittable(a);
    Body2Splittable();
    Body3Splittable(a);
    Body4Splittable(a);
    Body5Splittable(a);
    Body6Splittable(a);
    Body7Splittable(a);
  }

  lemma RenderableSplit(a: Analysis)
    requires Renderable(a)
    ensures var bs := [Body1(a), Body2(), Body3(a), Body4(a), Body5(a), Body6(a), Body7(a)];
      Split(Compose(bs)) == [Head()] + bs
  {
    BodiesSplittable(a);
    ComposeSplitSeven(Body1(a), Body2(), Body3(a), Body4(a), Body5(a), Body6(a), Body7(a));
  }

  /** The analysis of any image meets the conditions. */
  lemma AnalysisRenderable(img: Image, sqrt: real -> real)
    requires IsSqrt(sqrt)
    ensures Renderable(Analyze(img, sqrt))
  {
    AnalysisPrintable(img, sqrt);
    AnalysisDetails(img, sqrt);
    TableDigitFree(Analyze(img, sqrt).best);
  }

  /** The offline round trip: the result view cuts the report the engine
      writes into the marker line followed by the seven section bodies. */
  lemma ImageReportSplit(img: Image, sqrt: real -> real)
    requires IsSqrt(sqrt)
    ensures Printable(Analyze(img, sqrt))
    ensures Split(ImageReport(img, sqrt)) == [Head()] + Bodies(Analyze(img, sqrt))
  {
    AnalysisRenderable(img, sqrt);
    RenderableSplit(Analyze(img, sqrt));
  }

  /** A line with no white space at its ends loses only its newline to `trim()`. */
  lemma TrimLine(s: string)
    requires 0 < |s| && !IsSpace(s[0]) && !IsSpace(s[|s| - 1])
    ensures Trim(s + "\n") == s
  {
    var t := s + "\n";
    assert t[0] == s[0];
    assert TrimStart(t) == t;
    assert t[|t| - 1] == '\n';
    assert t[..|t| - 1] == s;
    assert TrimEnd(s) == s;
    assert TrimEnd(t) == TrimEnd(s);
  }

  lemma MarkerLacksY()
    ensures 'y' !in "[OFFLINE MODE: Advanced " && 'y' !in "Heuristic Preview]" && 'y' !in "\n"
  {
  }

  lemma MarkerEnds()
    ensures Marker[0] == '[' && Marker[|Marker| - 1] == ']'
  {
  }

  lemma FirstTitleHasY()
    ensures 'y' in Titles[0] + ":"
  {
    assert (Titles[0] + ":")[21] == 'y';
  }

  /** The marker line never mentions the first card's title: it has no 'y'. */
  lemma HeadLacksFirstTitle()
    ensures !Includes(Head(), Titles[0] + ":")
  {
    FirstTitleHasY();
    MarkerLacksY();
    NotInConcat('y', "[OFFLINE MODE: Advanced ", "Heuristic Preview]");
    NotInConcat('y', Marker, "\n");
    MissingCharExcludes(Head(), Titles[0] + ":", 'y');
  }

  /** A line that does not mention a card's title keeps all but its newline. */
  lemma UntitledLine(line: string, title: string)
    requires 0 < |line| && !IsSpace(line[0]) && !IsSpace(line[|line| - 1])
    requires !Includes(line + "\n", title + ":")
    ensures StripTitle(line + "\n", title) == line
  {
    StripTitleAbsent(line + "\n", title);
    TrimLine(line);
  }

  /** The first card, "Identification Summary", shows the marker line with
      its newline trimmed. */
  lemma MarkerCard()
    ensures StripTitle(Head(), Titles[0]) == Marker
  {
    HeadLacksFirstTitle();
    MarkerEnds();
    UntitledLine(Marker, Titles[0]);
  }

  lemma NotInConcat(c: char, x: string, y: string)
    requires c !in x && c !in y
    ensures c !in x + y
  {
  }

  /** The offline report in the result view. The split yields the marker line
      and the seven bodies; the seven cards take indices 0 to 6 in every mode
      and each shows its own piece, never a placeholder: card 0 the marker
      line and card k the body one before the one its title names, so the
      recommendations body (piece 7) reaches no card. */
  lemma OfflineCards(a: Analysis, compare: bool, idx: nat)
    requires Renderable(a)
    ensures Rendered(compare, Split(Compose(Bodies(a))), idx) <==> idx < 7
    ensures Rendered(compare, Split(Compose(Bodies(a))), idx) ==>
              SectionOr(Split(Compose(Bodies(a))), idx, NoCloudData) == ([Head()] + Bodies(a))[idx]
  {
    RenderableSplit(a);
    EightPieceCards(Compose(Bodies(a)), compare, idx);
  }
}
